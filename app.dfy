/** The coordinator (src/app.rs): it owns one quiz session and one hint
    tracker and gates the user's two requests on the current timer. The
    terminal loop itself is not modelled, only the mapping from a key to a
    handler. */
module Coordinator {
  import opened Numeric
  import opened Models
  import opened Timing
  import opened QuizSession

  /** A key press as the event loop reads it. */
  datatype KeyCode = Char(ch: char) | OtherKey

  /** What a key press asks of the coordinator. */
  datatype Action = Quit | RequestHint | RequestNext | NoAction

  /** The key map of the event loop: `q` quits, `h` asks for a hint, `n` asks
      for the next question, and every other key is ignored. */
  function Dispatch(key: KeyCode): (a: Action)
    ensures a == Quit <==> key == Char('q')
    ensures a == RequestHint <==> key == Char('h')
    ensures a == RequestNext <==> key == Char('n')
  {
    match key
    case Char('q') => Quit
    case Char('h') => RequestHint
    case Char('n') => RequestNext
    case _ => NoAction
  }

  class App {
    const quiz: QuizState
    const hints: HintState

    /** The session is valid and the hint cursor never passes the current
        question's last hint (it stays 0 when the question has none). */
    ghost predicate Valid()
      reads this, quiz, quiz.timer, hints
    {
      quiz.Valid() &&
      hints.hintIndex <= SaturatingSub(|quiz.CurrentQuestion().hints|, 1)
    }

    /** `App::new` at instant `now`, with the questions the repository
        supplied: question 0 on screen, its countdown just started, hints
        hidden at index 0. */
    constructor (questions: seq<Question>, now: nat)
      requires |questions| > 0
      ensures Valid() && fresh(quiz) && fresh(quiz.timer) && fresh(hints)
      ensures quiz.questions == questions && quiz.currentIndex == 0
      ensures quiz.timer.started == now && quiz.timer.limit == FromSecs(questions[0].timeLimitSecs)
      ensures !hints.showHints && hints.hintIndex == 0
    {
      quiz := new QuizState(questions, now);
      hints := new HintState();
    }

    /** The effect of a hint request at `now`: nothing once the timer has
        expired; before that, hints become visible and the index advances by
        one step of `next_hint` over the current question's hints, in the
        same request. The session is never touched. */
    twostate predicate HintRequestEffect(now: nat)
      reads this, quiz, quiz.timer, hints
      requires old(quiz.Valid()) && old(quiz.timer.started) <= now
    {
      unchanged(quiz, quiz.timer) &&
      if old(quiz.timer.IsExpired(now)) then
        unchanged(hints)
      else
        hints.showHints &&
        hints.hintIndex == NextHintIndex(old(hints.hintIndex), |old(quiz.CurrentQuestion()).hints|)
    }

    /** The effect of a next-question request at `now`: nothing while the
        timer runs; once it has expired, `next_question` runs and the hints
        are reset, even on the last question, where the cursor and the timer
        stay as they were. */
    twostate predicate NextRequestEffect(now: nat)
      reads this, quiz, quiz.timer, hints
      requires old(quiz.Valid()) && old(quiz.timer.started) <= now
    {
      if !old(quiz.timer.IsExpired(now)) then
        unchanged(quiz, quiz.timer, hints)
      else
        quiz.currentIndex == NextIndex(old(quiz.currentIndex), |quiz.questions|) &&
        (if old(quiz.currentIndex) == |quiz.questions| - 1 then
           unchanged(quiz.timer)
         else
           quiz.timer.started == now &&
           quiz.timer.limit == FromSecs(quiz.questions[quiz.currentIndex].timeLimitSecs)) &&
        !hints.showHints && hints.hintIndex == 0
    }

    /** `handle_hint_request` at instant `now`. */
    method HandleHintRequest(now: nat)
      requires Valid() && quiz.timer.started <= now
      modifies hints
      ensures Valid()
      ensures HintRequestEffect(now)
    {
      if !quiz.timer.IsExpired(now) {
        hints.EnableHints();
        var maxHints := |quiz.CurrentQuestion().hints|;
        hints.NextHint(maxHints);
      }
    }

    /** `handle_next_question` at instant `now`. */
    method HandleNextQuestion(now: nat)
      requires Valid() && quiz.timer.started <= now
      modifies quiz, quiz.timer, hints
      ensures Valid()
      ensures NextRequestEffect(now)
    {
      if quiz.timer.IsExpired(now) {
        quiz.NextQuestion(now);
        hints.Reset();
      }
    }

    /** One key press of the event loop at instant `now`: `quit` reports that
        the session ends; otherwise the key's handler runs, or nothing does. */
    method HandleKey(key: KeyCode, now: nat) returns (quit: bool)
      requires Valid() && quiz.timer.started <= now
      modifies quiz, quiz.timer, hints
      ensures Valid()
      ensures quit <==> Dispatch(key) == Quit
      ensures Dispatch(key) == RequestHint ==> HintRequestEffect(now)
      ensures Dispatch(key) == RequestNext ==> NextRequestEffect(now)
      ensures Dispatch(key) in {Quit, NoAction} ==> unchanged(quiz, quiz.timer, hints)
    {
      quit := false;
      match Dispatch(key)
      case Quit =>
        quit := true;
      case RequestHint =>
        HandleHintRequest(now);
      case RequestNext =>
        HandleNextQuestion(now);
      case NoAction =>
    }
  }

  /** Three hint requests in a row on a fresh first question that has three
      hints and a non-zero limit: the indices shown are 1, 2, 2, because each
      request both reveals and advances, so hint 0 is skipped and the cursor
      then saturates at the last hint. */
  method ThreeHintRequests(questions: seq<Question>, now: nat) returns (indices: seq<nat>, visible: bool)
    requires |questions| > 0 && |questions[0].hints| == 3 && questions[0].timeLimitSecs > 0
    ensures indices == [1, 2, 2] && visible
  {
    var app := new App(questions, now);
    app.HandleHintRequest(now);
    indices := [app.hints.hintIndex];
    app.HandleHintRequest(now);
    indices := indices + [app.hints.hintIndex];
    app.HandleHintRequest(now);
    indices := indices + [app.hints.hintIndex];
    visible := app.hints.showHints;
  }

  /** A first question with a zero limit is expired at once: a hint request
      does nothing, and a next-question request at the same instant already
      moves on (when there is a second question). */
  method ZeroLimitQuestion(questions: seq<Question>, now: nat) returns (visible: bool, index: nat)
    requires |questions| > 1 && questions[0].timeLimitSecs == 0
    ensures !visible && index == 1
  {
    var app := new App(questions, now);
    app.HandleHintRequest(now);
    visible := app.hints.showHints;
    app.HandleNextQuestion(now);
    index := app.quiz.currentIndex;
  }

  /** Before the deadline a next-question request is refused; at or after it,
      the request moves to question 1, restarts the timer with question 1's
      limit and hides the hints revealed on question 0. */
  method NextAfterExpiry(questions: seq<Question>, now: nat, early: nat, late: nat)
    returns (indexEarly: nat, indexLate: nat, visible: bool, hintIndex: nat, expiredAfter: bool)
    requires |questions| > 1 && questions[0].timeLimitSecs > 0
    requires now <= early < now + FromSecs(questions[0].timeLimitSecs) <= late
    ensures indexEarly == 0 && indexLate == 1
    ensures !visible && hintIndex == 0
    ensures expiredAfter <==> questions[1].timeLimitSecs == 0
  {
    var app := new App(questions, now);
    app.HandleHintRequest(now);
    app.HandleNextQuestion(early);
    indexEarly := app.quiz.currentIndex;
    app.HandleNextQuestion(late);
    indexLate := app.quiz.currentIndex;
    visible := app.hints.showHints;
    hintIndex := app.hints.hintIndex;
    expiredAfter := app.quiz.timer.IsExpired(late);
  }

  /** A single-question session never leaves question 0: after expiry each
      next-question request keeps the cursor where it is but still hides the
      hints revealed before the deadline. */
  method SingleQuestionStays(questions: seq<Question>, now: nat, late: nat, later: nat)
    returns (visibleBefore: bool, index: nat, visible: bool, hintIndex: nat)
    requires |questions| == 1 && |questions[0].hints| > 1 && questions[0].timeLimitSecs > 0
    requires now + FromSecs(questions[0].timeLimitSecs) <= late <= later
    ensures visibleBefore && index == 0 && !visible && hintIndex == 0
  {
    var app := new App(questions, now);
    app.HandleHintRequest(now);
    visibleBefore := app.hints.showHints;
    app.HandleNextQuestion(late);
    app.HandleHintRequest(later);
    app.HandleNextQuestion(later);
    index := app.quiz.currentIndex;
    visible := app.hints.showHints;
    hintIndex := app.hints.hintIndex;
  }
}

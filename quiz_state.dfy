/** The question cursor and the hint cursor (src/quiz_state.rs). */
module QuizSession {
  import opened Numeric
  import opened Models
  import opened Timing

  /** The index `next_question` moves to from `index` in a sequence of `total`
      questions: one further, except on the last question, where it stays. */
  function NextIndex(index: nat, total: nat): (next: nat)
    requires index < total
    ensures next < total
    ensures next == index <==> index == total - 1
    ensures next != index ==> next == index + 1
  {
    if index >= total - 1 then index else index + 1
  }

  /** The question index after `calls` calls to `next_question` from a fresh
      session over `total` questions. */
  function IndexAfter(calls: nat, total: nat): (index: nat)
    requires total > 0
    ensures index < total
  {
    if calls == 0 then 0 else NextIndex(IndexAfter(calls - 1, total), total)
  }

  /** Advancing from a fresh session visits the questions in order, one at a
      time, with no skip and no repeat, and then stays on the last one. */
  lemma {:induction false} AdvancesVisitInOrder(calls: nat, total: nat)
    requires total > 0
    ensures IndexAfter(calls, total) == Min(calls, total - 1)
  {
    if calls > 0 {
      AdvancesVisitInOrder(calls - 1, total);
    }
  }

  /** The questions of a session, the current position in them, and the
      countdown bound to the current question. */
  class QuizState {
    const questions: seq<Question>
    var currentIndex: nat
    /** Owned by this session alone; `next_question` resets it in place. */
    const timer: Timer

    /** The session is non-empty, the cursor is in range, and the timer counts
        down the current question's limit. */
    ghost predicate Valid()
      reads this, timer
    {
      0 < |questions| && currentIndex < |questions| &&
      timer.limit == FromSecs(questions[currentIndex].timeLimitSecs)
    }

    /** `QuizState::new` at instant `now`. The source indexes the first
        question unconditionally, so it needs a non-empty sequence. */
    constructor (questions: seq<Question>, now: nat)
      requires |questions| > 0
      ensures Valid() && fresh(timer)
      ensures this.questions == questions && currentIndex == 0
      ensures timer.started == now && timer.limit == FromSecs(questions[0].timeLimitSecs)
    {
      this.questions := questions;
      currentIndex := 0;
      timer := new Timer(questions[0].timeLimitSecs, now);
    }

    /** The question on screen; the timer runs against its limit. */
    function CurrentQuestion(): (q: Question)
      reads this, timer
      requires Valid()
      ensures q == questions[CurrentIndex()]
      ensures timer.limit == FromSecs(q.timeLimitSecs)
    {
      questions[currentIndex]
    }

    /** Position of the current question, always within the session. */
    function CurrentIndex(): (i: nat)
      reads this, timer
      requires Valid()
      ensures i < TotalQuestions()
    {
      currentIndex
    }

    /** Number of questions in the session, which is never zero. */
    function TotalQuestions(): (n: nat)
      reads this, timer
      requires Valid()
      ensures n == |questions| && n > 0
    {
      |questions|
    }

    /** The countdown of the current question. */
    function CurrentTimer(): (t: Timer)
      reads this, timer
      requires Valid()
      ensures t.limit == FromSecs(questions[currentIndex].timeLimitSecs)
    {
      timer
    }

    /** The cursor is on the final question (the source compares with `>=`,
        which under the invariant is equality). */
    predicate IsLastQuestion()
      reads this, timer
      requires Valid()
      ensures IsLastQuestion() <==> currentIndex == |questions| - 1
    {
      currentIndex >= |questions| - 1
    }

    /** `next_question` at instant `now`: on the last question nothing
        changes; otherwise the cursor moves one on and the timer restarts with
        the new question's limit. The timer's expiry is not consulted here. */
    method NextQuestion(now: nat)
      requires Valid()
      modifies this`currentIndex, timer
      ensures Valid()
      ensures currentIndex == NextIndex(old(currentIndex), |questions|)
      ensures old(IsLastQuestion()) ==> currentIndex == old(currentIndex) && unchanged(timer)
      ensures !old(IsLastQuestion()) ==>
        currentIndex == old(currentIndex) + 1 &&
        timer.started == now && timer.limit == FromSecs(questions[currentIndex].timeLimitSecs)
    {
      if !IsLastQuestion() {
        currentIndex := currentIndex + 1;
        var newLimit := questions[currentIndex].timeLimitSecs;
        timer.Reset(newLimit, now);
      }
    }
  }

  /** The hint index `next_hint(maxHints)` moves to from `index`: one further,
      saturating at the last hint, `maxHints.saturating_sub(1)`. With at most
      one hint it never moves. */
  function NextHintIndex(index: nat, maxHints: nat): (next: nat)
    ensures next == index || next == index + 1
    ensures next == index + 1 <==> index < SaturatingSub(maxHints, 1)
    ensures index <= SaturatingSub(maxHints, 1) ==> next <= SaturatingSub(maxHints, 1)
    ensures index < maxHints ==> next < maxHints
    ensures maxHints <= 1 ==> next == index
  {
    if index < SaturatingSub(maxHints, 1) then index + 1 else index
  }

  /** The hint index after `calls` calls to `next_hint(maxHints)` from index 0. */
  function HintIndexAfter(calls: nat, maxHints: nat): (index: nat)
    ensures index <= SaturatingSub(maxHints, 1)
  {
    if calls == 0 then 0 else NextHintIndex(HintIndexAfter(calls - 1, maxHints), maxHints)
  }

  /** `k` calls from index 0 reach `min(k, maxHints - 1)`: the index climbs one
      per call and then saturates at the last hint (0 when there are none). */
  lemma {:induction false} HintAdvancesSaturate(calls: nat, maxHints: nat)
    ensures HintIndexAfter(calls, maxHints) == Min(calls, SaturatingSub(maxHints, 1))
  {
    if calls > 0 {
      HintAdvancesSaturate(calls - 1, maxHints);
    }
  }

  /** Whether hints are on screen, and which one. */
  class HintState {
    var showHints: bool
    var hintIndex: nat

    /** `HintState::new`: hidden, at the first hint. */
    constructor ()
      ensures !showHints && hintIndex == 0
    {
      showHints := false;
      hintIndex := 0;
    }

    function ShowHints(): bool
      reads this
    {
      showHints
    }

    function HintIndex(): nat
      reads this
    {
      hintIndex
    }

    /** `enable_hints`: shows hints; idempotent, the index is left alone. */
    method EnableHints()
      modifies this`showHints
      ensures showHints && hintIndex == old(hintIndex)
    {
      showHints := true;
    }

    /** `next_hint(max_hints)`: advances the index, saturating at the last
        hint; visibility is left alone. */
    method NextHint(maxHints: nat)
      modifies this`hintIndex
      ensures hintIndex == NextHintIndex(old(hintIndex), maxHints)
      ensures showHints == old(showHints)
    {
      if hintIndex < SaturatingSub(maxHints, 1) {
        hintIndex := hintIndex + 1;
      }
    }

    /** `reset`: back to hidden at the first hint, whatever the prior state. */
    method Reset()
      modifies this
      ensures !showHints && hintIndex == 0
    {
      showHints := false;
      hintIndex := 0;
    }
  }
}

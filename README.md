# Quiz trainer session core, modelled in Dafny

This project models the session state machine of a terminal quiz trainer for
Kubernetes exam practice. The trainer shows a fixed sequence of questions, and
each question has its own countdown. While the countdown runs, the learner can
ask for hints. Once it has expired, the answer is shown and the learner can
move on to the next question.

The model has these parts:

- `numeric.dfy` (`Numeric`): saturating subtraction, as Rust's `saturating_sub`.
- `models.dfy` (`Models`): the `Question` record.
- `timer.dfy` (`Timing`): the `Timer` class. It has a start instant and a
  limit. It derives the elapsed time, the remaining time and expiry, and
  `Reset` overwrites both fields in place.
- `quiz_state.dfy` (`QuizSession`): two classes.
  - `QuizState` holds the questions, the cursor and the timer it owns.
    `NextQuestion` moves the cursor and resets that timer in place.
  - `HintState` holds the hint visibility flag and the hint cursor.
  - Pure functions `NextIndex` and `NextHintIndex` specify one step of each
    cursor, and lemmas state what repeated steps do.
- `app.dfy` (`Coordinator`): the `App` class, which owns one session and one
  hint tracker.
  - Its two handlers gate hint requests and next-question requests on the
    timer.
  - `Dispatch` maps a key to an action.
  - `HandleKey` runs one key press of the event loop.
  - Four client methods state the end-to-end scenarios.

The clock is not read. Every operation that runs against `Instant::now()` in
the source takes the current instant `now: nat` as an argument. Instants and
durations are nanosecond ticks, the resolution of Rust's `Duration`, so a limit
of `s` seconds is `FromSecs(s) == s * 1_000_000_000` ticks. The clock is
monotonic, so callers never pass a `now` earlier than the timer's start. That
is the `started <= now` precondition of `Elapsed`, `Remaining`, `IsExpired` and
the handlers.

`App.Valid()` is the invariant that every handler preserves. It says:

- the cursor is in range;
- the timer counts down the current question's limit;
- the hint cursor never passes the current question's last hint, or stays 0
  when the question has none.

Because every handler keeps this invariant, the hint bound holds across any
sequence of key presses.

Where the code and its design description differ, the model follows the code:

- A zero time limit is accepted, not rejected. Such a timer is expired from
  the start (`Timer.constructor`, `Timer.Reset`, `ZeroLimitQuestion`).
- `QuizState::new` indexes the first question without a check, so an empty
  question list is a panic rather than an error value. The constructor
  therefore requires a non-empty sequence.
- `next_question` does not look at the timer. Only the coordinator gates it on
  expiry.
- A next-question request after expiry always resets the hints, including on
  the last question, where the cursor does not move.
- A hint request both reveals the hints and advances the cursor, so the first
  request lands on index 1. With two or more hints, hint 0 is never on screen
  after a request. With three hints, three requests give 1, 2, 2, not 0, 1, 2
  (`ThreeHintRequests`).

## Model

| member | source | states |
|---|---|---|
| `Numeric.SaturatingSub` | src/timer.rs:22-24 | the difference clamped at zero: the least natural `r` with `r + b >= a`, never above `a` |
| `Timing.FromSecs` | src/timer.rs:14 | a limit of `s` seconds is a whole number of seconds: divisible by the tick rate with quotient `s`, zero only for `s == 0` |
| `Timing.Timer.constructor` | src/timer.rs:11-16 | a new timer starts at `now` with the limit in whole seconds; elapsed is 0, remaining equals the limit, and it is expired at once exactly when the limit is 0 |
| `Timing.Timer.Elapsed` | src/timer.rs:18-20 | the time since the start: `started + elapsed == now`, never negative |
| `Timing.Timer.Remaining` | src/timer.rs:22-24 | never above the limit and never negative; zero exactly when elapsed has reached the limit; otherwise `elapsed + remaining == limit` |
| `Timing.Timer.IsExpired` | src/timer.rs:26-28 | expired exactly when nothing remains, i.e. exactly when `now` is at or past `started + limit` |
| `Timing.Timer.Reset` | src/timer.rs:30-33 | both fields are overwritten from the arguments alone, so no prior state survives and resetting twice equals resetting once; afterwards elapsed is 0, remaining is the new limit, and a zero limit is expired at once |
| `Timing.ExpiryIsMonotone` | src/timer.rs:18-28 | once expired at some instant, the timer is expired with nothing remaining at every later instant |
| `QuizSession.NextIndex` | src/quiz_state.rs:39-49 | one advance stays in range; it leaves the index unchanged exactly on the last question and otherwise adds one |
| `QuizSession.IndexAfter` | src/quiz_state.rs:43-49 | any number of advances from a fresh session stays within the question list |
| `QuizSession.AdvancesVisitInOrder` | src/quiz_state.rs:43-49 | `k` advances from index 0 reach `min(k, N-1)`: the N−1 first ones visit 0..N−1 in order with no skip, and later ones stay at N−1 |
| `QuizSession.QuizState.constructor` | src/quiz_state.rs:14-21 | needs a non-empty list; starts at index 0 with a timer started at `now` for question 0's limit |
| `QuizSession.QuizState.CurrentQuestion` | src/quiz_state.rs:23-25 | the question at the cursor, whose limit is the one the timer counts down |
| `QuizSession.QuizState.CurrentIndex` | src/quiz_state.rs:27-29 | the cursor is always below the number of questions |
| `QuizSession.QuizState.TotalQuestions` | src/quiz_state.rs:31-33 | the length of the question list, never zero |
| `QuizSession.QuizState.CurrentTimer` | src/quiz_state.rs:35-37 | the owned timer, bound to the current question's limit |
| `QuizSession.QuizState.IsLastQuestion` | src/quiz_state.rs:39-41 | holds exactly when the cursor is on the final question |
| `QuizSession.QuizState.NextQuestion` | src/quiz_state.rs:43-49 | does not consult the timer. On the last question it changes nothing. Otherwise the index goes up by one and the timer restarts at `now` with the new question's limit. The question list never changes |
| `QuizSession.NextHintIndex` | src/quiz_state.rs:80-84 | adds one exactly when the index is below `max_hints.saturating_sub(1)`, otherwise stays. It never passes the last hint, never reaches `max_hints` from below it, and never moves when there are at most one hint |
| `QuizSession.HintIndexAfter` | src/quiz_state.rs:80-84 | any number of hint advances from index 0 stays at or below the last hint index |
| `QuizSession.HintAdvancesSaturate` | src/quiz_state.rs:80-84 | `k` hint advances from index 0 reach `min(k, max(m-1, 0))`: one step per call, then saturation |
| `QuizSession.HintState.constructor` | src/quiz_state.rs:61-66 | hints start hidden at index 0 |
| `QuizSession.HintState.EnableHints` | src/quiz_state.rs:76-78 | hints become visible (idempotent) and the index is unchanged |
| `QuizSession.HintState.NextHint` | src/quiz_state.rs:80-84 | the index takes one `NextHintIndex` step and visibility is unchanged |
| `QuizSession.HintState.Reset` | src/quiz_state.rs:86-89 | back to hidden at index 0 whatever the prior state |
| `Coordinator.Dispatch` | src/app.rs:36-41 | `q` and only `q` quits, `h` and only `h` requests a hint, `n` and only `n` requests the next question; every other key does nothing |
| `Coordinator.App.constructor` | src/app.rs:21-27 | question 0 on screen with a timer for its limit started at `now`, hints hidden at index 0, and the invariant established |
| `Coordinator.App.HandleHintRequest` | src/app.rs:49-55 | when expired, nothing changes. Otherwise hints become visible and the index takes one step bounded by the current question's hint count. The session (cursor and timer) is never touched and the hint bound is kept |
| `Coordinator.App.HandleNextQuestion` | src/app.rs:57-62 | while the timer runs, nothing changes. Once expired, the session advances as `NextQuestion` does and the hints are reset unconditionally, also on the last question |
| `Coordinator.App.HandleKey` | src/app.rs:35-41 | one key press: quits exactly on `q`, runs the hint handler on `h` and the next-question handler on `n`, and leaves all state unchanged on any other key |
| `Coordinator.ThreeHintRequests` | src/app.rs:49-55 | on a fresh question with three hints and a non-zero limit, three hint requests show indices 1, 2, 2 with hints visible |
| `Coordinator.ZeroLimitQuestion` | src/app.rs:49-62 | a zero-limit first question is expired at once: a hint request is refused and a next-question request moves to question 1 |
| `Coordinator.NextAfterExpiry` | src/app.rs:57-62 | a next-question request before the deadline is refused. At or after it, the request moves to question 1 and hides the hints. The new timer is expired at that instant only if question 1's limit is zero |
| `Coordinator.SingleQuestionStays` | src/quiz_state.rs:39-49 | with one question, next-question requests after expiry keep the cursor at 0 but still reset the hints revealed earlier |

`HintState.ShowHints` and `HintState.HintIndex` are the two plain accessors of
src/quiz_state.rs:68-74. They have no contract of their own.
`App.HintRequestEffect` and `App.NextRequestEffect` are two-state predicates.
They state the effect that the handlers and `HandleKey` promise.

## Left out

- The terminal user interface (src/ui.rs): layout, colours and text. It only reads the state.
- Terminal setup and teardown and the async runtime (src/main.rs).
- The polling loop of `App::run` (src/app.rs:30-47): `terminal.draw`, `event::poll`, `event::read` and the 50 ms sleep. Only its key-to-handler mapping is modelled (`Dispatch`, `App.HandleKey`). Non-key events and keys that are not characters all fall under `OtherKey`.
- The question repository (src/question_repository.rs). `App` takes the question list directly instead of asking a repository for it. The hard-coded question bank is not reproduced.
- The serde derives on `Question`.
- `Instant::now()`. The instant is an argument, and one handler call uses one instant for both its expiry check and any timer reset it causes.
- `Timing.Timer.Elapsed`: requires `started <= now` because the clock is monotonic. It does not model `Instant::elapsed` clamping a backwards clock to zero.
- Integer widths (`usize`, `u64`): fields are unbounded naturals. No operation of the core can overflow. Every increment is bounded by a sequence length, and every subtraction saturates or is guarded by the non-empty list.

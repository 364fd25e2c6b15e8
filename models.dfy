/** The question record (src/models.rs). */
module Models {

  /** One quiz question: an informational id, the prompt, its hints in the order
      they are revealed (possibly none), the canonical answer and the per-question
      time limit in whole seconds. Questions are never changed once built. */
  datatype Question = Question(
    id: nat,
    question: string,
    hints: seq<string>,
    answer: string,
    timeLimitSecs: nat)
}

/** What a claim reads of a conversation: a call by name, or a prompt by its first line
    (features/lib/model-said.ts, Said). */
module Sayings {
  datatype Said = Call(call: string) | Prompt(prompt: string)

  const TURN_PART := "<jr2-turn>"

  /** A restated Turn part prints as its own prompt. */
  predicate IsRestatement(s: Said) {
    s.Prompt? && TURN_PART <= s.prompt
  }
}

/** The result objects decide.js prints, one constructor per command. Field
    names follow the JSON keys, except that `randomNumber`'s `result` is
    `number` here, since its value is an integer and not a string. */
module Decisions {

  datatype Decision =
    | Failure(error: string)
    | Flipped(result: string, resultDe: string, emoji: string)
    | Rolled(notation: string, rolls: seq<int>, total: int, emoji: string)
    | Picked(options: seq<string>, result: string, emoji: string)
    | Answered(question: string, result: string, resultDe: string, mood: string, emoji: string)
    | Decided(result: string, resultDe: string, emoji: string)
    | Numbered(min: int, max: int, number: int, emoji: string)

  const CoinEmoji: string := "🪙"
  const DiceEmoji: string := "🎲"
  const PickEmoji: string := "🎯"
  const NumberEmoji: string := "🔢"
}

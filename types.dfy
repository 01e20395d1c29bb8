/** The content records of the adventure (types.ts): a scenario owns an ordered
    list of choices, and every choice owns exactly one outcome.  Identifiers are
    plain numbers; their uniqueness is a property of the catalog, not of the type. */
module Types {

  /** A value that may be absent: the model of TypeScript's `T | null`. */
  datatype Option<+T> = None | Some(value: T)

  /** What a choice leads to: a headline, an explanation and the takeaways,
      in the order they are shown.  Takeaways are opaque rich-text strings. */
  datatype Outcome = Outcome(
    result: string,
    clarification: string,
    keyTakeaways: seq<string>)

  /** One button of a scenario; it owns its outcome. */
  datatype Choice = Choice(
    id: int,
    title: string,
    subtitle: string,
    outcome: Outcome)

  /** One scenario; the order of `choices` is the order of the buttons. */
  datatype Scenario = Scenario(
    id: int,
    title: string,
    subtitle: string,
    character: string,
    intro: string,
    choices: seq<Choice>)
}

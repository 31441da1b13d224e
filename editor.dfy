/** The editor values the suggesters exchange with the host editor. */
module EditorTypes {
  /** `EditorPosition`: a line and a column. */
  datatype Position = Position(line: nat, ch: nat)

  /** `EditorSuggestTriggerInfo`: the range being typed and the query it holds. */
  datatype TriggerInfo = TriggerInfo(start: Position, end: Position, query: string)

  /** `editor.replaceRange(text, from, to)` */
  datatype Edit = Replace(text: string, from: Position, to: Position)
}

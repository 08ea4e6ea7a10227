/** The parts of the chat page that the conversation parser reads, as plain values.

    Every DOM *call* the parser makes (querySelectorAll, querySelector,
    getAttribute) may raise; its outcome is a `Read`. Property reads
    (innerHTML, disabled) are plain values. */
module Dom {

  /** A value that may be absent; `None` stands for JavaScript's null. */
  datatype Option<+T> = None | Some(value: T)

  /** The outcome of a DOM call: its value, or the raised fault as the string
      the error stringifies to. */
  datatype Read<+T> = Ok(value: T) | Throw(error: string)

  /** One chat-turn container: the result of `getAttribute("data-content")`
      (None when the attribute is absent) and the result of
      `querySelectorAll("p")`, each paragraph given by its innerHTML. */
  datatype Turn = Turn(dataContent: Read<Option<string>>, paragraphs: Read<seq<string>>)

  /** The "stop responding" button. */
  datatype Button = Button(disabled: bool)

  /** The document: the result of the chat-turn query, in document order,
      and the result of the stop-button query (None when no button matches). */
  datatype Page = Page(turns: Read<seq<Turn>>, stopButton: Read<Option<Button>>)
}

/** What the pages show besides their data: notifications and chat bubbles. */
module Display {
  import opened Optional

  /** A notification (toast or snackbar) shown to the user; `isError` selects its error style. */
  datatype Notice = Notice(text: string, isError: bool)

  /** The side of the chat window a message sits on. */
  datatype Alignment = Left | Right

  /** How one chat message is rendered: its side and the label above it, if any. */
  datatype Bubble = Bubble(align: Alignment, caption: Option<string>)
}

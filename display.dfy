/** The message boxes (`messagebox.showinfo` / `messagebox.showerror`) the user is shown. */
module Display {

  datatype Message = Info(title: string, text: string) | Error(title: string, text: string)

  /** The screen, as far as messages go: every message box shown, in order. */
  class Screen {
    var messages: seq<Message>

    constructor ()
      ensures messages == []
    {
      messages := [];
    }

    method Show(m: Message)
      modifies this`messages
      ensures messages == old(messages) + [m]
    {
      messages := messages + [m];
    }
  }
}

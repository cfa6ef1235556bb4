/** The Bubble Tea vocabulary the dashboard uses: the messages its Update
    functions receive, the commands they hand back to the runtime (as
    descriptions, since the runtime runs them), and the textinput widget
    abstracted to its value and focus flag. */
module Tea {
  import opened GitHub

  /** ModalSubmitMsg's payload: the trimmed fields of the add-repo form. */
  datatype AddRepoResult = AddRepoResult(owner: string, repo: string, notes: string)

  /** The messages of model.go and modal.go (tea.Msg is an open union in Go). */
  datatype Msg =
    | KeyMsg(key: string)
    | WindowSizeMsg(width: int, height: int)
    | SpinnerTickMsg
    | RepoLoadingMsg(loadingKey: string)
    | RepoCheckedMsg(checkedKey: string, result: RepoStatus)
    | ModalSubmitMsg(submitted: AddRepoResult)
    | ModalCancelMsg

  /** A repository to resolve in the background: the closure checkRepo returns. */
  datatype CheckTask = CheckTask(owner: string, repo: string, key: string)

  /** What an update hands back to the runtime. */
  datatype Effect =
    | NoEffect                      // nil command
    | Quit                          // tea.Quit
    | Checks(tasks: seq<CheckTask>) // a batch of checkRepo closures
    | Deliver(msg: Msg)             // a command that yields this message
    | Browse(url: string)           // openBrowser, run directly by the handler

  /** The state of one textinput.Model that the form looks at. */
  datatype TextInput = TextInput(value: string, placeholder: string, prompt: string, charLimit: int, focused: bool)

  function Focus(t: TextInput): (r: TextInput)
    ensures r.focused && r.(focused := t.focused) == t
  {
    t.(focused := true)
  }

  function Blur(t: TextInput): (r: TextInput)
    ensures !r.focused && r.(focused := t.focused) == t
  {
    t.(focused := false)
  }
}

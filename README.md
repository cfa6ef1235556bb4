# reprac, modelled in Dafny

reprac is a terminal dashboard that tracks GitHub repositories and shows,
for each one, whether its default branch has commits that are not yet in the
latest release or tag. This project models its decision logic and proves
properties of it:

- the status resolver (`internal/github/github.go`): a fixed chain of API calls
  (repository metadata, latest release or first tag, one level of annotated-tag
  dereferencing, comparison) reduced to one `RepoStatus`. The API is an oracle
  record `Api` with one answer per endpoint;
- the dashboard state machine (`internal/ui/model.go`): the repository list,
  the `results`, `loading` and `expanded` maps keyed by `owner/repo`, the
  cursor, the add-repository form and the status line, as a class mutated in
  place. The Go model has value receivers, but its maps are shared by every
  copy. Commands are described by the `Effect` datatype, and a finished
  background check is one more message, `RepoCheckedMsg`;
- the row helpers of the table (`internal/ui/components/table.go`), the
  add-repository form (`internal/ui/components/modal.go`) and the framed panel
  (`internal/ui/components/panel.go`).

Styling is the identity throughout. `lipgloss.Width` is a parameter of the
panel. The form's keystroke editing is a parameter of the form's update.

The code is followed where it differs from what one might expect:

- `G` on an empty list sets the cursor to -1.
- Deleting a row keeps its `expanded` entry.
- While the form is open, finished checks are swallowed.
- A check that finishes after its repository was deleted re-creates the
  repository's `results` entry.
- Refreshing a key that is already loading starts a second check.
- The table's non-ASCII literals are kept as the code points the source file
  actually holds. Its ellipsis is three runes, so a truncated text is
  maxLen + 2 runes long.

Files: `text.dfy` (Go string helpers), `github.dfy`, `tea.dfy` (messages,
effects, text inputs), `modal.dfy`, `table.dfy`, `panel.dfy`, `ui.dfy`.

## Model

| member | source | states |
|---|---|---|
| GitHub.StatusName | internal/github/github.go:45-59 | every status prints a non-empty name |
| GitHub.StatusNameInjective | internal/github/github.go:45-59 | distinct statuses print differently |
| GitHub.Get | internal/github/github.go:96-122 | a 404 is ErrNotFound, and only a 404 is; any other code >= 400 is an "HTTP code" error carrying that code; a value comes back exactly when the code is below 400 and the body decodes; a transport failure propagates |
| GitHub.ShortErr | internal/github/github.go:298-304 | the message is kept whole when it has at most 40 characters; otherwise its first 40 are kept; the result is always a prefix of at most 40 characters |
| GitHub.DefaultBranch | internal/github/github.go:177-188 | an error propagates unchanged; an empty default branch becomes "main", a non-empty one is kept, so the branch is never empty |
| GitHub.ResolveTagSha | internal/github/github.go:226-251 | an error from the ref lookup propagates; a non-annotated ref yields its own SHA; an annotated one is dereferenced exactly one level, falling back to the tag object's SHA without error when that lookup fails |
| GitHub.LatestRef | internal/github/github.go:190-224 | the ref type is "release" exactly when the release lookup succeeded with a non-empty tag that resolved; otherwise the first tag is used: a tags error is the only error, an empty list gives an empty SHA, and an unresolvable tag keeps the list's commit SHA |
| GitHub.ErrorText | internal/github/github.go:114-124 | a not-found error reads "not found"; an HTTP error reads "HTTP " followed by the decimal text of its code |
| GitHub.HttpErrorCarriesCode | internal/github/github.go:117-119 | the text of an HTTP error is "HTTP " followed by decimal digits only, and those digits denote the status code |
| GitHub.ShortSha | internal/github/github.go:283-286 | a prefix of the SHA, of length min(len, 7) |
| GitHub.FirstLine | internal/github/github.go:287-291 | a prefix of the message with no newline: the whole message when it has none, otherwise the text before its first newline |
| GitHub.RecentCommits | internal/github/github.go:271-293 | exactly min(n, 5) commits; entry k is the summary of the API's (n-1-k)-th entry; each SHA is a prefix of the original SHA, and each message has no newline; oldest-first input comes out newest-first |
| GitHub.CompareCommits | internal/github/github.go:253-296 | an API error propagates; otherwise ahead is ahead_by unchanged and the commits are the recent ones as above |
| GitHub.CheckRepo | internal/github/github.go:126-175 | a failing metadata, ref or compare step gives StatusError with the shortened error text, and later fields stay empty; the branch is set only after the metadata step; an empty ref SHA gives StatusNoRelease with no tag; otherwise Behind exactly when ahead > 0, else Clean, with the comparison's count and at most five commits; the status is never Loading |
| Text.TrimSpace | internal/ui/components/modal.go:79-81 | the result has no leading or trailing white space, is empty exactly when the input is all white space, and is the input itself when that has no white space at either end |
| Text.TrimSpaceIsInfix | internal/ui/components/modal.go:79-81 | the result is the runes of the input from index i on, in order, where every rune before i and every rune after the result is white space; with TrimSpace's own contract this fixes the result uniquely |
| Text.NatToString | internal/ui/components/table.go:189 | the %d text of a natural number: one or more decimal digits, no leading zero unless the number is 0, and the digits denote the number |
| Text.IntToString | internal/ui/components/table.go:125 | the %d text of an integer: the digits of a non-negative value, or "-" followed by the digits of its magnitude, which denote it |
| Text.SplitJoin | internal/ui/components/panel.go:16-53 | splitting on newlines what Join built from newline-free lines gives those lines back |
| Text.JoinSplit | internal/ui/components/panel.go:16-53 | joining the pieces of a split gives the string back |
| Table.ColumnsWidthIs144 | internal/ui/components/table.go:19-27 | the seven columns with their padding take 144 cells |
| Table.TableWidth | internal/ui/components/table.go:212-218 | the loop's total is the sum over Columns of width + 2, which is 144 |
| Table.Truncate | internal/ui/components/table.go:220-229 | "" when maxLen <= 0; the text itself when it has at most maxLen runes; otherwise its first maxLen-1 runes followed by the ellipsis literal |
| Table.StatusCell | internal/ui/components/table.go:146-159 | the "? unknown" badge is shown exactly for a status without a badge of its own (Loading) |
| Table.StatusCellInjective | internal/ui/components/table.go:146-159 | distinct statuses get distinct badges |
| Table.BranchCell | internal/ui/components/table.go:164-169 | an empty branch is shown as "main"; any other is shown truncated to the column |
| Table.TagCell | internal/ui/components/table.go:171-183 | the cell is the dash placeholder exactly when there is no tag name |
| Table.TagCellOnlySeesRelease | internal/ui/components/table.go:176-181 | only whether the ref type is "release" affects the tag cell |
| Table.TagCellDistinguishesRelease | internal/ui/components/table.go:176-182 | a release and a plain tag of the same name are shown differently |
| Table.CommitsCell | internal/ui/components/table.go:185-196 | "+N commit(s)" for Behind, "0" for Clean, the error truncated to 12 runes for Error, a dash otherwise |
| Table.MakeRowCells | internal/ui/components/table.go:133-210 | always seven cells, one per column; while loading or without a result, only the repository and notes cells carry data |
| Table.RowStyleFor | internal/ui/components/table.go:65-72 | RowSelected exactly when selected; otherwise RowNormal exactly for even indices |
| Table.MessageWidth | internal/ui/components/table.go:95-99 | the message width is never below 10, and is termWidth - 37 when that is larger |
| Table.RowLineCount | internal/ui/components/table.go:76-79 | a row is at least one line, and exactly one unless it is expanded and Behind with commits |
| Table.AppendCommitLines | internal/ui/components/table.go:104-119 | one line per commit is appended, in order, and earlier lines are kept |
| Table.RowLines | internal/ui/components/table.go:76-128 | the header first; for an expanded Behind row with commits, one commit line per commit in order and a "+N more" line last when CommitsAhead exceeds the commits listed; RowLineCount lines in all |
| Table.RenderRow | internal/ui/components/table.go:46-131 | the row is the newline-join of its lines: the header, then for an expanded Behind row with commits one line per commit, plus a "+N more" line with N = CommitsAhead - len(commits) exactly when CommitsAhead exceeds len(commits) |
| Modal.Refocus | internal/ui/components/modal.go:69-76 | the target input is the same input with its focus flag set; the input left, when different, is the same input with the flag cleared; all other inputs are untouched |
| Modal.AddRepoModal.constructor | internal/ui/components/modal.go:33-56 | exactly three empty inputs with their placeholders, a 100-character limit and a two-space prompt; focus index 0 and only input 0 focused |
| Modal.AddRepoModal.Zero | internal/ui/model.go:90 | the zero form has no inputs |
| Modal.AddRepoModal.MoveFocus | internal/ui/components/modal.go:69-76 | the focused input is blurred and the target focused; the focus index stays in [0, 2] |
| Modal.AddRepoModal.EditInputs | internal/ui/components/modal.go:101-107 | the loop leaves the array equal to its old contents with each input, in place and at its own index, replaced by the widget's update of that input under the message |
| Modal.AddRepoModal.Update | internal/ui/components/modal.go:61-109 | "esc" cancels with fields and focus unchanged; "tab"/"down" focus (f+1) mod 3 and "shift+tab"/"up" focus (f+2) mod 3; "enter" submits the trimmed fields exactly when trimmed owner and repo are non-empty, and otherwise focuses the owner field if it is empty, else the repo field; a submit never carries an empty owner or repo |
| Panel.ContentLines | internal/ui/components/panel.go:16-21 | the content's lines, then empty lines up to innerHeight when that is positive |
| Panel.RenderTitledPanel | internal/ui/components/panel.go:12-54 | the output is the newline-join of the panel's lines: top border, each content line framed, bottom border |
| Panel.PanelShape | internal/ui/components/panel.go:23-53 | the first line is the top border, the last is the bottom border "╰" + inner dashes + "╯", and each content line appears framed in order |
| Panel.PanelLineCount | internal/ui/components/panel.go:16-53 | with no newline in the title, the output has 2 + max(k, innerHeight) lines for k content lines when innerHeight > 0, and 2 + k otherwise |
| Panel.FramedWidth | internal/ui/components/panel.go:38-46 | measured in runes, a framed line is 2 + max(inner, width) wide: a narrower line is padded to the inner width, and a wider one is kept whole |
| Panel.TopBorderWidth | internal/ui/components/panel.go:25-35 | the untitled top border, and a titled one whose title leaves room, are exactly as wide as the bottom border |
| Ui.RepoKeyInjective | internal/ui/model.go:66-68 | when owners contain no '/', equal keys mean equal owner and repository |
| Ui.SetAll | internal/ui/model.go:174-177 | every listed key reads true afterwards; every other key keeps its entry |
| Ui.ToggleTwice | internal/ui/model.go:168-172 | toggling a key twice restores every lookup |
| Ui.RemoveAtMultiset | internal/ui/model.go:191 | the splice removes exactly one occurrence of the deleted entry |
| Ui.RemoveAtDistinct | internal/ui/model.go:187-199 | with distinct keys, the splice keeps them distinct, and the deleted key is no longer tracked |
| Ui.AppendDistinct | internal/ui/model.go:220-233 | appending a key not yet tracked keeps the keys distinct |
| Ui.CursorAfterDelete | internal/ui/model.go:194-196 | the cursor moves back at most one step and stays within the shorter list |
| Ui.GuardsDisagreeBelowZero | internal/ui/model.go:162 | the written row guard and the in-range guard differ exactly on a negative cursor over a non-empty list |
| Ui.ActionOf | internal/ui/model.go:128-214 | each action is chosen by exactly the key strings of its case in handleKey ("q"/"ctrl+c", "up"/"k", "down"/"j", "g", "G", "r", "R", "enter"/" ", "E", "C", "a", "d", "o", "?"); any other key is no action |
| Ui.KeyStep | internal/ui/model.go:128-214 | no key changes the terminal size or the auth flag; the quit command is returned exactly for "q"/"ctrl+c" |
| Ui.KeyStepEffects | internal/ui/model.go:128-214 | only "a" opens the form; only "d" on a selected row changes the list or the results; checks start exactly for "r" and for "R" on a selected row; the browser opens exactly for "o" on a selected row |
| Ui.KeyStepKeepsCursorInBounds | internal/ui/model.go:128-214 | no key takes the cursor below -1 or past the last row |
| Ui.CursorKeys | internal/ui/model.go:135-149 | only the cursor keys and delete move the cursor; the cursor keys change nothing else; "up" steps back exactly when the cursor is > 0, and "down" steps forward exactly when it is < len-1; "g" goes to 0 and "G" to len-1 on any list, so to -1 on an empty one |
| Ui.RowActionsNeedSelection | internal/ui/model.go:160-206 | R, enter/space, d and o do nothing when the cursor names no row |
| Ui.DeleteRowRepos | internal/ui/model.go:187-191 | "d" removes exactly the selected entry, keeps the order of the rest, and with distinct keys leaves the deleted key untracked |
| Ui.DeleteRowMaps | internal/ui/model.go:189-196 | "d" drops the key's results and loading entries and no others, keeps expanded, and moves the cursor back only when it is >= the new length and > 0 |
| Ui.ToggleRowTwice | internal/ui/model.go:168-172 | enter twice on the same row restores every expanded lookup and changes nothing else |
| Ui.ExpandAndCollapse | internal/ui/model.go:174-180 | "E" expands every tracked row and keeps other flags; "C" leaves no row expanded |
| Ui.RefreshKeys | internal/ui/model.go:151-166 | "r" marks every tracked key loading and starts one check per row, in order; "R" marks only the selected key and starts one check for it |
| Ui.Model.constructor | internal/ui/model.go:49-64 | empty maps, cursor 0, no form open |
| Ui.Model.CheckRepo | internal/ui/model.go:241-250 | the key is marked loading before its check runs, and the check is returned for that key |
| Ui.Model.CheckAll | internal/ui/model.go:151-158 | one check per tracked repository in order, every key marked loading, whether or not it already was |
| Ui.Model.Init | internal/ui/model.go:72-78 | Init starts a check for every tracked repository and marks each loading |
| Ui.Model.ExpandAll | internal/ui/model.go:174-177 | the loop leaves every tracked key expanded |
| Ui.Model.DeleteSelected | internal/ui/model.go:187-199 | with a row selected, the row is spliced out, its results and loading entries are dropped, the cursor moves back only past the new end, the status line names the row, and the form is untouched |
| Ui.Model.HandleKey | internal/ui/model.go:128-214 | the state and command after a key are those KeyStep gives for its action; the cursor invariant is kept; "a" opens a new form sized to the terminal |
| Ui.Model.HandleAddRepo | internal/ui/model.go:216-237 | the form is closed either way; a tracked key leaves the list unchanged and sets "Repo k already tracked"; otherwise exactly one entry is appended at the end, its key is marked loading, and its check starts |
| Ui.Model.Update | internal/ui/model.go:82-126 | while the form is open, every message goes to the form: results and loading are unchanged even for a finished check, cancel closes and clears the form, and submit goes to HandleAddRepo; with it closed, a finished check deletes its loading mark and replaces its result whether or not the key is still tracked, and changes nothing else |
| Ui.NegativeCursorScenario | internal/ui/model.go:148-149 | "G" on an empty list, then adding a repository, leaves cursor -1 over one row, which the written guard admits |
| Ui.RowHeight | internal/ui/model.go:382-395 | a row is at least one line tall, and more than one exactly when it is expanded and its result is Behind with commits |
| Ui.RowHeightMatchesRenderRow | internal/ui/model.go:382-395 | rowHeight equals the number of lines RenderRow draws for the row |
| Ui.FillEndBounds | internal/ui/model.go:411-417 | the forward pass stays in the list, takes at least one row when it can, stops early only once the budget is filled, and every row but the last one taken fits |
| Ui.FillFrom | internal/ui/model.go:411-417 | the loop stops where FillEnd says |
| Ui.ScrollWindow | internal/ui/model.go:397-432 | (0, 0) for an empty list; for 0 <= cursor < total and height >= 1, 0 <= start <= cursor < end <= total |
| Ui.OverviewCounts | internal/ui/model.go:279-294 | the totals, and the number of tracked rows whose result is Behind, Clean and NoRelease |
| Ui.CountsWithinTotal | internal/ui/model.go:280-294 | the three counts together never exceed the number of tracked repositories |

## Left out

- HTTP transport and JSON decoding in `get` are not modelled. `GitHub.Get` takes the exchange as a value, and each API call is an answer of the `Api` oracle.
- The API oracle `Api` gives one answer per call: repeating a call gets the same answer, and the ref lookup answers by tag name alone. When the latest release's tag is also the first tag, both lookups therefore agree. In the source these are two separate requests (`internal/github/github.go:196` and `:218`), which could get different answers.
- Token discovery (`New`, `tokenFromGHCLI`, `HasAuth`) is not modelled: it reads the environment and runs a subprocess. `noAuth` is a constructor argument.
- The clock and time formatting are parameters. `CheckRepo` takes `now`, and the table takes a `clock` formatter. The zero time is 0.
- The concurrency of `tea.Cmd` and `tea.Batch` is not modelled. Commands are `Effect` values, and each finished check is a `RepoCheckedMsg` fed to `Update`.
- The spinner is not modelled: its tick message changes nothing here.
- Browser launch (`openBrowser`) is not modelled: it starts a subprocess. "o" returns a `Browse` effect naming the URL.
- Saving the configuration is a no-op whose error is ignored, as in the source.
- `View` is not modelled apart from its status counts. The same goes for `buildOverview`, `RenderHeader`, `RenderFooter`, `RenderSummary` and the form's view: they are lipgloss layout and styling.
- lipgloss is not modelled: `Render` is the identity, and padding a cell or line to a width is not modelled. The cells of a row are concatenated, and `lipgloss.Width` is a parameter.
- The keystroke editing of the bubbles `textinput` widget is a library function, so it is the parameter `edit`.
- Command-line wiring (`cmd/root.go`), configuration I/O (`internal/config/config.go`) and the style constants are not part of this model.
- GitHub.ShortErr: counts characters, not bytes. Go's `s[:40]` cuts at byte 40 and may split a multi-byte character.
- GitHub.StatusName: the "unknown" branch for an out-of-range integer cannot arise, because `Status` is a datatype.
- Panel.RenderTitledPanel: requires width >= 2. `strings.Repeat` panics on a negative count, and the model does not represent the panic. `View` passes `m.width - 52` for its right panel, so a terminal narrower than 54 columns reaches it.
- Ui.ToggleTwice: states equality of lookups, not of maps. Toggling an absent key twice leaves an explicit false entry behind.
- Ui.Model.HandleKey: the row actions are guarded by 0 <= cursor < len rather than the source's guard; see Findings.
- Ui.Model.Update: states only what the form's update promises for messages it passes to the form. The textinput's own commands, such as cursor blink, are not modelled.
- Go's 64-bit `int` is an unbounded integer here. Counts and widths never come near overflow.

## Findings

| source | as written | input that shows it | evidently intended | confidence | as-written member | corrected member |
|---|---|---|---|---|---|---|
| internal/ui/model.go:162 | the row actions (R at 162, enter/space at 169, d at 188, o at 202) are guarded by `len(repos) > 0 && m.cursor < len(repos)`, which admits cursor -1 | press "G" on an empty list (cursor becomes -1 at line 149), then "a" and submit owner "acme", repo "api": one row, cursor -1; "d" then evaluates `repos[-1]` and panics | act only when 0 <= cursor < len(repos) | high, not executed | Ui.NegativeCursorScenario | Ui.Model.RowAction |

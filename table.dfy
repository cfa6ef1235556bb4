/** The repository table of internal/ui/components/table.go with styling
    taken as the identity: which text goes in each cell, how many lines a row
    takes, and which row style applies. The literals are kept exactly as the
    source file stores them (its non-ASCII glyphs are mis-encoded, e.g. the
    ellipsis is three runes). */
module Table {
  import opened Text
  import opened GitHub

  datatype Column = Column(title: string, width: int)

  const Columns: seq<Column> := [
    Column("STATUS", 18),
    Column("REPOSITORY", 30),
    Column("BRANCH", 12),
    Column("LAST TAG / RELEASE", 22),
    Column("UNRELEASED", 14),
    Column("NOTES", 24),
    Column("CHECKED", 10)
  ]

  /** Total width of the columns, each with its two cells of padding. */
  function ColumnsWidth(cols: seq<Column>): int
  {
    if cols == [] then 0 else ColumnsWidth(cols[..|cols| - 1]) + cols[|cols| - 1].width + 2
  }

  lemma ColumnsWidthSnoc(cols: seq<Column>, c: Column)
    ensures ColumnsWidth(cols + [c]) == ColumnsWidth(cols) + c.width + 2
  {
    assert (cols + [c])[..|cols|] == cols;
  }

  /** The seven columns need 144 cells. */
  lemma ColumnsWidthIs144()
    ensures ColumnsWidth(Columns) == 144
  {
    ColumnsWidthSnoc([], Columns[0]);
    ColumnsWidthSnoc(Columns[..1], Columns[1]);
    ColumnsWidthSnoc(Columns[..2], Columns[2]);
    ColumnsWidthSnoc(Columns[..3], Columns[3]);
    ColumnsWidthSnoc(Columns[..4], Columns[4]);
    ColumnsWidthSnoc(Columns[..5], Columns[5]);
    ColumnsWidthSnoc(Columns[..6], Columns[6]);
    assert Columns[..1] == [] + [Columns[0]];
    assert Columns[..2] == Columns[..1] + [Columns[1]];
    assert Columns[..3] == Columns[..2] + [Columns[2]];
    assert Columns[..4] == Columns[..3] + [Columns[3]];
    assert Columns[..5] == Columns[..4] + [Columns[4]];
    assert Columns[..6] == Columns[..5] + [Columns[5]];
    assert Columns == Columns[..6] + [Columns[6]];
  }

  /** TableWidth: the columns' widths plus padding, accumulated in a loop. */
  method TableWidth() returns (total: int)
    ensures total == ColumnsWidth(Columns)
    ensures total == 144
  {
    total := 0;
    for i := 0 to |Columns|
      invariant total == ColumnsWidth(Columns[..i])
    {
      assert Columns[..i + 1][..i] == Columns[..i];
      total := total + Columns[i].width + 2;
    }
    assert Columns[..|Columns|] == Columns;
    ColumnsWidthIs144();
  }

  const Ellipsis: string := "\U{e2}\U{20ac}\U{a6}"
  const Dash: string := "\U{e2}\U{20ac}\U{201d}"
  const LoadingBadge: string := "\U{e2}\U{b3} loading..."
  const BehindBadge: string := "\U{e2}\U{2013}\U{b2} need deploy"
  const CleanBadge: string := "\U{e2}\U{153}\U{201c} up to date"
  const NoReleaseBadge: string := "\U{e2}\U{2014}\U{2c6} no release"
  const ErrorBadge: string := "\U{e2}\U{153}\U{2014} error"
  const UnknownBadge: string := "? unknown"
  const ReleasePrefix: string := "\U{e2}\U{ac}\U{a1} "
  const TagPrefix: string := "\U{e2}\U{ac}\U{a2} "

  /** truncate: at most maxLen runes kept; a longer text keeps maxLen-1 runes
      and gets the ellipsis literal appended. */
  function Truncate(s: string, maxLen: int): (r: string)
    ensures maxLen <= 0 ==> r == ""
    ensures 0 < maxLen && |s| <= maxLen ==> r == s
    ensures 0 < maxLen < |s| ==>
      && |r| == maxLen - 1 + |Ellipsis|
      && r[..maxLen - 1] == s[..maxLen - 1]
      && r[maxLen - 1..] == Ellipsis
  {
    if maxLen <= 0 then ""
    else if |s| <= maxLen then s
    else s[..maxLen - 1] + Ellipsis
  }

  /** The status badge; a status without a badge of its own shows "? unknown". */
  function StatusCell(s: Status): (r: string)
    ensures r == UnknownBadge <==> s == StatusLoading
  {
    match s
    case StatusBehind => BehindBadge
    case StatusClean => CleanBadge
    case StatusNoRelease => NoReleaseBadge
    case StatusError => ErrorBadge
    case StatusLoading => UnknownBadge
  }

  /** Each status has its own badge, so the badge tells the status. */
  lemma StatusCellInjective(s: Status, t: Status)
    ensures StatusCell(s) == StatusCell(t) ==> s == t
  {
  }

  /** The branch shown: "main" stands in for an empty branch. */
  function BranchCell(branch: string): (r: string)
    ensures branch != "" ==> r == Truncate(branch, Columns[2].width - 2)
    ensures branch == "" ==> r == "main"
  {
    Truncate(if branch == "" then "main" else branch, Columns[2].width - 2)
  }

  /** The tag shown: a dash when there is none, otherwise the name behind a
      prefix that tells releases from tags. */
  function TagCell(tagName: string, refType: string): (r: string)
    ensures r == Dash <==> tagName == ""
  {
    if tagName == "" then Dash
    else
      var prefix := if refType == "release" then ReleasePrefix else TagPrefix;
      Truncate(prefix + tagName, Columns[3].width - 2)
  }

  /** Only whether the ref is a release matters to the tag cell, not which
      other ref type it has. */
  lemma TagCellOnlySeesRelease(name: string, t1: string, t2: string)
    requires (t1 == "release") == (t2 == "release")
    ensures TagCell(name, t1) == TagCell(name, t2)
  {
  }

  /** A release and a tag of the same name are told apart. */
  lemma {:induction false} TagCellDistinguishesRelease(name: string)
    requires name != ""
    ensures TagCell(name, "release") != TagCell(name, "tag")
  {
    var r := TagCell(name, "release");
    var t := TagCell(name, "tag");
    assert (ReleasePrefix + name)[2] != (TagPrefix + name)[2];
    assert r[2] == (ReleasePrefix + name)[2];
    assert t[2] == (TagPrefix + name)[2];
  }

  /** The unreleased-commits cell. */
  function CommitsCell(s: RepoStatus): (r: string)
    ensures s.status == StatusBehind ==> r == "+" + IntToString(s.commitsAhead) + " commit(s)"
    ensures s.status == StatusClean ==> r == "0"
    ensures s.status == StatusError ==> r == Truncate(s.errorMsg, Columns[4].width - 2)
    ensures s.status in {StatusLoading, StatusNoRelease} ==> r == Dash
  {
    match s.status
    case StatusBehind => "+" + IntToString(s.commitsAhead) + " commit(s)"
    case StatusClean => "0"
    case StatusError => Truncate(s.errorMsg, Columns[4].width - 2)
    case _ => Dash
  }

  /** makeRowCells: one text per column. While loading, or before any result,
      only the repository and notes cells carry data. `clock` formats a
      timestamp (time formatting is not modelled). */
  function MakeRowCells(owner: string, repo: string, notes: string, status: Option<RepoStatus>,
                        loading: bool, clock: Timestamp -> string): (cells: seq<string>)
    ensures |cells| == |Columns|
    ensures cells[1] == Truncate(owner + "/" + repo, Columns[1].width - 2)
    ensures cells[5] == Truncate(notes, Columns[5].width - 2)
    ensures loading || status.None? ==>
      cells[0] == LoadingBadge && cells[2] == Dash && cells[3] == Dash && cells[4] == Dash && cells[6] == Dash
    ensures !loading && status.Some? ==>
      var s := status.value;
      && cells[0] == StatusCell(s.status)
      && cells[2] == BranchCell(s.branch)
      && cells[3] == TagCell(s.tagName, s.refType)
      && cells[4] == CommitsCell(s)
      && cells[6] == (if s.lastChecked == 0 then Dash else clock(s.lastChecked))
  {
    var repoCell := Truncate(owner + "/" + repo, Columns[1].width - 2);
    var notesCell := Truncate(notes, Columns[5].width - 2);
    if loading || status.None? then
      [LoadingBadge, repoCell, Dash, Dash, Dash, notesCell, Dash]
    else
      var s := status.value;
      var checkedCell := if s.lastChecked == 0 then Dash else clock(s.lastChecked);
      [StatusCell(s.status), repoCell, BranchCell(s.branch), TagCell(s.tagName, s.refType),
       CommitsCell(s), notesCell, checkedCell]
  }

  datatype RowStyle = RowSelected | RowNormal | RowAlt

  /** The selected row is highlighted; the others alternate by index parity. */
  function RowStyleFor(selected: bool, idx: int): (r: RowStyle)
    ensures r == RowSelected <==> selected
    ensures !selected ==> (r == RowNormal <==> idx % 2 == 0)
  {
    if selected then RowSelected
    else if idx % 2 == 0 then RowNormal
    else RowAlt
  }

  const Indent := 4
  const DateWidth := 18
  const ShaWidth := 7
  const ColGap := 3

  /** The room left for a commit message after the fixed prefix; never below 10. */
  function MessageWidth(termWidth: int): (r: int)
    ensures r >= 10
    ensures r == Max(10, termWidth - (Indent + DateWidth + ColGap + ShaWidth + ColGap) - 2)
  {
    var fixedPrefix := Indent + DateWidth + ColGap + ShaWidth + ColGap;
    var maxMsgLen := termWidth - fixedPrefix - 2;
    if maxMsgLen < 10 then 10 else maxMsgLen
  }

  /** Whether a row shows its commits under the header line. */
  predicate ShowsCommits(status: Option<RepoStatus>, expanded: bool)
  {
    expanded && status.Some? && status.value.status == StatusBehind && |status.value.commits| > 0
  }

  /** The number of lines RenderRow produces. */
  function RowLineCount(status: Option<RepoStatus>, expanded: bool): (n: nat)
    ensures n >= 1
    ensures !ShowsCommits(status, expanded) ==> n == 1
  {
    if !ShowsCommits(status, expanded) then 1
    else
      var s := status.value;
      1 + |s.commits| + (if s.commitsAhead > |s.commits| then 1 else 0)
  }

  /** The row's first line: its cells side by side. */
  function HeaderLine(owner: string, repo: string, notes: string, status: Option<RepoStatus>,
                      loading: bool, clock: Timestamp -> string): string
  {
    Concat(MakeRowCells(owner, repo, notes, status, loading, clock))
  }

  function CommitLine(c: CommitInfo, maxMsgLen: int, clock: Timestamp -> string): string
  {
    var date := if c.date == 0 then "" else clock(c.date);
    Repeat(' ', Indent) + date + Repeat(' ', ColGap) + c.sha + Repeat(' ', ColGap) + Truncate(c.message, maxMsgLen)
  }

  function MoreLine(more: int): string
  {
    Repeat(' ', Indent) + "+ " + IntToString(more) + " more commits..."
  }

  /** The loop of RenderRow that adds one line per commit. */
  method AppendCommitLines(lines0: seq<string>, commits: seq<CommitInfo>, maxMsgLen: int,
                           clock: Timestamp -> string) returns (lines: seq<string>)
    ensures |lines| == |lines0| + |commits| && lines[..|lines0|] == lines0
    ensures forall i :: 0 <= i < |commits| ==> lines[|lines0| + i] == CommitLine(commits[i], maxMsgLen, clock)
  {
    lines := lines0;
    for i := 0 to |commits|
      invariant |lines| == |lines0| + i && lines[..|lines0|] == lines0
      invariant forall j :: 0 <= j < i ==> lines[|lines0| + j] == CommitLine(commits[j], maxMsgLen, clock)
    {
      lines := lines + [CommitLine(commits[i], maxMsgLen, clock)];
    }
  }

  /** The lines of a row below its header: for an expanded Behind row with
      commits, one line per commit and a "+N more" line when the branch is
      further ahead than the commits listed. */
  method RowLines(header: string, status: Option<RepoStatus>, expanded: bool, termWidth: int,
                  clock: Timestamp -> string)
    returns (lines: seq<string>)
    ensures |lines| == RowLineCount(status, expanded)
    ensures lines[0] == header
    ensures ShowsCommits(status, expanded) ==>
      var s := status.value;
      && (forall i :: 0 <= i < |s.commits| ==> lines[1 + i] == CommitLine(s.commits[i], MessageWidth(termWidth), clock))
      && (s.commitsAhead > |s.commits| ==> lines[|lines| - 1] == MoreLine(s.commitsAhead - |s.commits|))
  {
    if !expanded || status.None? || status.value.status != StatusBehind || |status.value.commits| == 0 {
      return [header];
    }
    var s := status.value;
    var maxMsgLen := MessageWidth(termWidth);
    var body := AppendCommitLines([header], s.commits, maxMsgLen, clock);
    lines := body;
    if s.commitsAhead > |s.commits| {
      lines := body + [MoreLine(s.commitsAhead - |s.commits|)];
      assert lines[..|body|] == body;
    }
  }

  /** RenderRow: the header line of cells, then the commit lines of an
      expanded row. `lines` is what the source joins into `row`. */
  method RenderRow(idx: int, selected: bool, repoKey: string, owner: string, repo: string, notes: string,
                   status: Option<RepoStatus>, loading: bool, expanded: bool, termWidth: int,
                   clock: Timestamp -> string)
    returns (lines: seq<string>, row: string)
    ensures row == Join(lines)
    ensures |lines| == RowLineCount(status, expanded)
    ensures lines[0] == HeaderLine(owner, repo, notes, status, loading, clock)
    ensures ShowsCommits(status, expanded) ==>
      var s := status.value;
      && (forall i :: 0 <= i < |s.commits| ==> lines[1 + i] == CommitLine(s.commits[i], MessageWidth(termWidth), clock))
      && (s.commitsAhead > |s.commits| ==> lines[|lines| - 1] == MoreLine(s.commitsAhead - |s.commits|))
  {
    var header := HeaderLine(owner, repo, notes, status, loading, clock);
    lines := RowLines(header, status, expanded, termWidth, clock);
    row := Join(lines);
  }
}

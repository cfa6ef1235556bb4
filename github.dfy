/** The remote status resolver of internal/github/github.go: a fixed chain of
    GitHub REST calls reduced to one RepoStatus. The API itself is an oracle:
    each endpoint has one answer (a decoded value or an error) per repository. */
module GitHub {
  import opened Text

  /** Status codes; the Go type is an int enumeration starting at StatusLoading. */
  datatype Status = StatusLoading | StatusClean | StatusBehind | StatusNoRelease | StatusError

  /** Status.String. */
  function StatusName(s: Status): (r: string)
    ensures r != ""
  {
    match s
    case StatusLoading => "loading"
    case StatusClean => "clean"
    case StatusBehind => "behind"
    case StatusNoRelease => "no_release"
    case StatusError => "error"
  }

  /** Distinct statuses print differently, so the name identifies the status. */
  lemma StatusNameInjective(s: Status, t: Status)
    ensures StatusName(s) == StatusName(t) ==> s == t
  {
  }

  /** Timestamps are opaque; 0 stands for Go's zero time.Time. */
  type Timestamp = int

  /** One commit as shown in an expanded row. */
  datatype CommitInfo = CommitInfo(sha: string, message: string, date: Timestamp)

  datatype RepoStatus = RepoStatus(
    owner: string,
    repo: string,
    branch: string,
    tagName: string,
    refType: string,
    commitsAhead: int,
    commits: seq<CommitInfo>,
    status: Status,
    errorMsg: string,
    lastChecked: Timestamp)

  // ── API oracle ────────────────────────────────────────────────────────────

  /** The errors `get` can return. */
  datatype ApiError =
    | NotFound                    // ErrNotFound, for status 404
    | HttpError(code: int)        // "HTTP <code>" for any other status >= 400
    | TransportError(msg: string) // request construction or transport failure
    | DecodeError(msg: string)    // malformed JSON body

  /** err.Error() for each error kind. */
  function ErrorText(e: ApiError): (r: string)
    ensures e.NotFound? ==> r == "not found"
    ensures e.HttpError? ==> r == "HTTP " + IntToString(e.code)
  {
    match e
    case NotFound => "not found"
    case HttpError(code) => "HTTP " + IntToString(code)
    case TransportError(msg) => msg
    case DecodeError(msg) => msg
  }

  datatype Response<T> = Ok(value: T) | Err(error: ApiError)

  /** An HTTP error's text carries its status code: the digits after "HTTP "
      denote the code. */
  lemma HttpErrorCarriesCode(code: nat)
    ensures var r := ErrorText(HttpError(code));
      && |r| > 5 && r[..5] == "HTTP "
      && (forall i :: 5 <= i < |r| ==> '0' <= r[i] <= '9')
      && DigitsValue(r[5..]) == code
  {
    var r := ErrorText(HttpError(code));
    assert r[5..] == NatToString(code);
  }

  /** A response body as the JSON decoder reads it. */
  datatype Decoded<T> = Parsed(value: T) | Malformed(reason: string)

  /** What the transport delivered for one GET: no answer at all, or a status
      code and the body. */
  datatype Exchange<T> =
    | Unreachable(reason: string)
    | Answered(statusCode: int, body: Decoded<T>)

  /** The status-code classification in `get`: a transport failure propagates,
      404 is ErrNotFound, any other code >= 400 is "HTTP <code>", and only
      then is the body decoded. */
  function Get<T>(x: Exchange<T>): (r: Response<T>)
    ensures r == Err(NotFound) <==> x.Answered? && x.statusCode == 404
    ensures (r.Err? && r.error.HttpError?) <==> x.Answered? && x.statusCode >= 400 && x.statusCode != 404
    ensures r.Err? && r.error.HttpError? ==> r.error.code == x.statusCode
    ensures r.Ok? <==> x.Answered? && x.statusCode < 400 && x.body.Parsed?
    ensures r.Ok? ==> r.value == x.body.value
    ensures x.Unreachable? ==> r == Err(TransportError(x.reason))
    ensures x.Answered? && x.statusCode < 400 && x.body.Malformed? ==> r == Err(DecodeError(x.body.reason))
  {
    match x
    case Unreachable(reason) => Err(TransportError(reason))
    case Answered(code, body) =>
      if code == 404 then Err(NotFound)
      else if code >= 400 then Err(HttpError(code))
      else match body
        case Parsed(v) => Ok(v)
        case Malformed(reason) => Err(DecodeError(reason))
  }

  /** The `object` of a git ref: its type ("commit", "tag", ...) and SHA. */
  datatype RefObject = RefObject(kind: string, sha: string)

  /** One entry of the tags list. */
  datatype TagEntry = TagEntry(name: string, commitSha: string)

  /** One entry of the comparison's commit list. */
  datatype RawCommit = RawCommit(sha: string, message: string, date: Timestamp)

  /** The decoded body of the compare endpoint. */
  datatype Comparison = Comparison(aheadBy: int, commits: seq<RawCommit>)

  /** The answers of the GitHub API for one repository owner/repo, one per call:
      the repository metadata (its default_branch), the latest release (its
      tag_name), the first page (size 1) of tags, the ref of a tag by name, an
      annotated tag object by SHA (the SHA it points to), and the comparison
      base...head. A field absent from a JSON body decodes as "". */
  datatype Api = Api(
    repository: Response<string>,
    latestRelease: Response<string>,
    tags: Response<seq<TagEntry>>,
    gitRef: string -> Response<RefObject>,
    gitTag: string -> Response<string>,
    compare: (string, string) -> Response<Comparison>)

  // ── Resolver steps ────────────────────────────────────────────────────────

  const MaxErrLen := 40
  const MaxCommits := 5
  const ShortShaLen := 7

  /** shortErr: an error text cut to its first 40 characters. */
  function ShortErr(s: string): (r: string)
    ensures |r| <= MaxErrLen
    ensures r <= s
    ensures |s| <= MaxErrLen ==> r == s
    ensures |s| > MaxErrLen ==> |r| == MaxErrLen
  {
    if |s| > MaxErrLen then s[..MaxErrLen] else s
  }

  /** getDefaultBranch: the metadata's default branch, "main" when it is empty. */
  function DefaultBranch(api: Api): (r: Response<string>)
    ensures r.Err? <==> api.repository.Err?
    ensures r.Err? ==> r.error == api.repository.error
    ensures r.Ok? ==> r.value != ""
    ensures r.Ok? && api.repository.value != "" ==> r.value == api.repository.value
    ensures r.Ok? && api.repository.value == "" ==> r.value == "main"
  {
    match api.repository
    case Err(e) => Err(e)
    case Ok(b) => if b == "" then Ok("main") else Ok(b)
  }

  /** resolveTagSHA: the commit a tag names. An annotated tag ("tag" object) is
      dereferenced exactly one level; if that lookup fails the tag object's own
      SHA is returned without error. */
  function ResolveTagSha(api: Api, tag: string): (r: Response<string>)
    ensures r.Err? <==> api.gitRef(tag).Err?
    ensures r.Err? ==> r.error == api.gitRef(tag).error
    ensures r.Ok? && api.gitRef(tag).value.kind != "tag" ==> r.value == api.gitRef(tag).value.sha
    ensures r.Ok? && api.gitRef(tag).value.kind == "tag" ==>
      var obj := api.gitRef(tag).value.sha;
      r.value == (if api.gitTag(obj).Ok? then api.gitTag(obj).value else obj)
  {
    match api.gitRef(tag)
    case Err(e) => Err(e)
    case Ok(ref) =>
      if ref.kind == "tag" then
        match api.gitTag(ref.sha)
        case Err(_) => Ok(ref.sha)
        case Ok(target) => Ok(target)
      else Ok(ref.sha)
  }

  /** The release point found by getLatestRef: SHA, name and "release"/"tag";
      all empty when the repository has neither. */
  datatype Ref = Ref(sha: string, name: string, refType: string)

  /** Whether the latest-release lookup yields a usable release. */
  predicate ReleaseUsable(api: Api)
  {
    api.latestRelease.Ok? && api.latestRelease.value != ""
    && ResolveTagSha(api, api.latestRelease.value).Ok?
  }

  /** getLatestRef: the latest release if it resolves, otherwise the first tag. */
  function LatestRef(api: Api): (r: Response<Ref>)
    ensures ReleaseUsable(api) ==>
      r == Ok(Ref(ResolveTagSha(api, api.latestRelease.value).value, api.latestRelease.value, "release"))
    ensures r.Ok? && r.value.refType == "release" <==> ReleaseUsable(api)
    ensures r.Err? <==> !ReleaseUsable(api) && api.tags.Err?
    ensures r.Err? ==> r.error == api.tags.error
    ensures !ReleaseUsable(api) && api.tags.Ok? && api.tags.value == [] ==> r == Ok(Ref("", "", ""))
    ensures !ReleaseUsable(api) && api.tags.Ok? && api.tags.value != [] ==>
      var tag := api.tags.value[0];
      && r.Ok? && r.value.name == tag.name && r.value.refType == "tag"
      && (ResolveTagSha(api, tag.name).Err? ==> r.value.sha == tag.commitSha)
      && (ResolveTagSha(api, tag.name).Ok? ==> r.value.sha == ResolveTagSha(api, tag.name).value)
  {
    if ReleaseUsable(api) then
      var name := api.latestRelease.value;
      Ok(Ref(ResolveTagSha(api, name).value, name, "release"))
    else
      match api.tags
      case Err(e) => Err(e)
      case Ok(tags) =>
        if |tags| == 0 then Ok(Ref("", "", ""))
        else
          var tag := tags[0];
          var sha := match ResolveTagSha(api, tag.name)
            case Ok(resolved) => resolved
            case Err(_) => tag.commitSha;
          Ok(Ref(sha, tag.name, "tag"))
  }

  /** The SHA cut to at most 7 characters. */
  function ShortSha(sha: string): (r: string)
    ensures r <= sha
    ensures |r| == Min(|sha|, ShortShaLen)
  {
    if |sha| > ShortShaLen then sha[..ShortShaLen] else sha
  }

  /** The message up to (not including) its first newline. */
  function FirstLine(msg: string): (r: string)
    ensures r <= msg
    ensures '\n' !in r
    ensures '\n' !in msg ==> r == msg
    ensures |r| < |msg| ==> msg[|r|] == '\n'
  {
    msg[..LineEnd(msg)]
  }

  /** How one raw commit is summarised. */
  function Summarize(c: RawCommit): CommitInfo
  {
    CommitInfo(ShortSha(c.sha), FirstLine(c.message), c.date)
  }

  /** `commits` are the last (at most five) entries of `all`, newest first,
      each summarised. */
  ghost predicate IsRecentOf(commits: seq<CommitInfo>, all: seq<RawCommit>)
  {
    && |commits| == Min(|all|, MaxCommits)
    && forall k :: 0 <= k < |commits| ==> commits[k] == Summarize(all[|all| - 1 - k])
  }

  ghost predicate OldestFirst(all: seq<RawCommit>)
  {
    forall i, j :: 0 <= i < j < |all| ==> all[i].date <= all[j].date
  }

  ghost predicate NewestFirst(commits: seq<CommitInfo>)
  {
    forall i, j :: 0 <= i < j < |commits| ==> commits[i].date >= commits[j].date
  }

  /** The list work of compareCommits: keep the last five entries and write
      them, summarised, into a fresh buffer at reversed positions. */
  method RecentCommits(all: seq<RawCommit>) returns (commits: seq<CommitInfo>)
    ensures IsRecentOf(commits, all)
    ensures |commits| <= MaxCommits
    ensures forall k :: 0 <= k < |commits| ==>
      commits[k].sha <= all[|all| - 1 - k].sha && '\n' !in commits[k].message
    ensures OldestFirst(all) ==> NewestFirst(commits)
  {
    var start := 0;
    if |all| > MaxCommits {
      start := |all| - MaxCommits;
    }
    var recent := all[start..];
    var buf := new CommitInfo[|recent|];
    for i := 0 to |recent|
      invariant forall k :: |recent| - i <= k < |recent| ==> buf[k] == Summarize(recent[|recent| - 1 - k])
    {
      buf[|recent| - 1 - i] := Summarize(recent[i]);
    }
    commits := buf[..];
    assert recent == all[|all| - |recent|..];
  }

  /** The comparison result handed back to CheckRepo. */
  datatype Compared = Compared(ahead: int, commits: seq<CommitInfo>)

  /** compareCommits: the comparison base...head, its ahead_by unchanged, and
      its recent commits; an API error propagates. */
  method CompareCommits(api: Api, base: string, head: string) returns (r: Response<Compared>)
    ensures r.Err? <==> api.compare(base, head).Err?
    ensures r.Err? ==> r.error == api.compare(base, head).error
    ensures r.Ok? ==>
      && r.value.ahead == api.compare(base, head).value.aheadBy
      && IsRecentOf(r.value.commits, api.compare(base, head).value.commits)
  {
    match api.compare(base, head)
    case Err(e) =>
      r := Err(e);
    case Ok(cmp) =>
      var commits := RecentCommits(cmp.commits);
      r := Ok(Compared(cmp.aheadBy, commits));
  }

  /** The status CheckRepo reports when a step fails with `e`: only the fields
      filled before that step survive. */
  function Failed(partial: RepoStatus, e: ApiError): RepoStatus
  {
    partial.(status := StatusError, errorMsg := ShortErr(ErrorText(e)))
  }

  /** CheckRepo: metadata, then the latest release or tag, then the comparison
      release...branch. The first failing step ends the check with StatusError. */
  method CheckRepo(api: Api, owner: string, repo: string, now: Timestamp) returns (result: RepoStatus)
    ensures result.owner == owner && result.repo == repo && result.lastChecked == now
    ensures result.status != StatusLoading
    ensures result.status != StatusError ==> result.errorMsg == ""
    ensures result.status == StatusBehind <==> result.commitsAhead > 0
    ensures |result.commits| <= MaxCommits
    // step 1: metadata
    ensures DefaultBranch(api).Err? ==>
      result == RepoStatus(owner, repo, "", "", "", 0, [], StatusError,
                           ShortErr(ErrorText(DefaultBranch(api).error)), now)
    ensures DefaultBranch(api).Ok? ==> result.branch == DefaultBranch(api).value
    // step 2: latest ref
    ensures DefaultBranch(api).Ok? && LatestRef(api).Err? ==>
      result == RepoStatus(owner, repo, DefaultBranch(api).value, "", "", 0, [], StatusError,
                           ShortErr(ErrorText(LatestRef(api).error)), now)
    ensures DefaultBranch(api).Ok? && LatestRef(api).Ok? && LatestRef(api).value.sha == "" ==>
      result == RepoStatus(owner, repo, DefaultBranch(api).value, "", "", 0, [], StatusNoRelease, "", now)
    ensures result.status == StatusNoRelease <==>
      DefaultBranch(api).Ok? && LatestRef(api).Ok? && LatestRef(api).value.sha == ""
    // step 3: comparison
    ensures DefaultBranch(api).Ok? && LatestRef(api).Ok? && LatestRef(api).value.sha != "" ==>
      var ref := LatestRef(api).value;
      var cmp := api.compare(ref.sha, DefaultBranch(api).value);
      && result.tagName == ref.name && result.refType == ref.refType
      && (cmp.Err? ==> result.status == StatusError && result.commitsAhead == 0 && result.commits == []
                       && result.errorMsg == ShortErr(ErrorText(cmp.error)))
      && (cmp.Ok? ==> && result.commitsAhead == cmp.value.aheadBy
                      && IsRecentOf(result.commits, cmp.value.commits)
                      && result.status == (if cmp.value.aheadBy > 0 then StatusBehind else StatusClean))
  {
    result := RepoStatus(owner, repo, "", "", "", 0, [], StatusLoading, "", now);

    var branch := DefaultBranch(api);
    if branch.Err? {
      result := Failed(result, branch.error);
      return;
    }
    result := result.(branch := branch.value);

    var ref := LatestRef(api);
    if ref.Err? {
      result := Failed(result, ref.error);
      return;
    }
    if ref.value.sha == "" {
      result := result.(status := StatusNoRelease);
      return;
    }
    result := result.(tagName := ref.value.name, refType := ref.value.refType);

    var cmp := CompareCommits(api, ref.value.sha, branch.value);
    if cmp.Err? {
      result := Failed(result, cmp.error);
      return;
    }
    result := result.(commitsAhead := cmp.value.ahead, commits := cmp.value.commits);
    if cmp.value.ahead > 0 {
      result := result.(status := StatusBehind);
    } else {
      result := result.(status := StatusClean);
    }
  }
}

/** The dashboard's state machine of internal/ui/model.go. The Go Model has
    value receivers, but its three maps are reference values shared by every
    copy, so its updates are modelled as a class mutated in place. Commands are
    described by Effect; a finished background check comes back as one more
    message, RepoCheckedMsg. Config saving (whose error the source ignores),
    the spinner and the browser launch are not modelled. */
module Ui {
  import opened Text
  import opened GitHub
  import opened Tea
  import opened Modal
  import Table

  /** One tracked repository of the configuration file. */
  datatype RepoConfig = RepoConfig(owner: string, repo: string, notes: string)

  function RepoKey(owner: string, repo: string): string
  {
    owner + "/" + repo
  }

  function Key(r: RepoConfig): string
  {
    RepoKey(r.owner, r.repo)
  }

  /** The keys of a repository list, in order. */
  function KeysOf(rs: seq<RepoConfig>): (ks: seq<string>)
    ensures |ks| == |rs|
    ensures forall i :: 0 <= i < |rs| ==> ks[i] == Key(rs[i])
  {
    seq(|rs|, i requires 0 <= i < |rs| => Key(rs[i]))
  }

  predicate Distinct(ks: seq<string>)
  {
    forall i, j :: 0 <= i < j < |ks| ==> ks[i] != ks[j]
  }

  /** The index of the first '/' of s, or |s| when there is none. */
  function SlashIndex(s: string): (r: nat)
    ensures r <= |s|
    ensures forall i :: 0 <= i < r ==> s[i] != '/'
    ensures r < |s| ==> s[r] == '/'
  {
    if s == [] then 0
    else if s[0] == '/' then 0
    else 1 + SlashIndex(s[1..])
  }

  lemma {:induction false} SlashIndexOfKey(owner: string, repo: string)
    requires '/' !in owner
    ensures SlashIndex(RepoKey(owner, repo)) == |owner|
  {
    var k := RepoKey(owner, repo);
    var r := SlashIndex(k);
    assert k[|owner|] == '/';
    assert forall i :: 0 <= i < |owner| ==> k[i] == owner[i];
  }

  /** Keys tell repositories apart as long as owners contain no '/', as
      GitHub owner names never do. */
  lemma RepoKeyInjective(o1: string, r1: string, o2: string, r2: string)
    requires '/' !in o1 && '/' !in o2
    ensures RepoKey(o1, r1) == RepoKey(o2, r2) <==> o1 == o2 && r1 == r2
  {
    var k1, k2 := RepoKey(o1, r1), RepoKey(o2, r2);
    SlashIndexOfKey(o1, r1);
    SlashIndexOfKey(o2, r2);
    if k1 == k2 {
      assert |o1| == |o2|;
      assert o1 == k1[..|o1|];
      assert o2 == k2[..|o2|];
      assert r1 == k1[|o1| + 1..];
      assert r2 == k2[|o2| + 1..];
    }
  }

  /** A Go map[string]bool lookup: a missing key reads as false. */
  function Lookup(m: map<string, bool>, k: string): bool
  {
    k in m && m[k]
  }

  /** A Go map[string]*RepoStatus lookup: a missing key reads as nil. */
  function LookupResult(results: map<string, RepoStatus>, k: string): Option<RepoStatus>
  {
    if k in results then Some(results[k]) else None
  }

  /** m with every key of `keys` set to true, as the loops of Init, "r" and "E" leave it. */
  function SetAll(m: map<string, bool>, keys: seq<string>): (r: map<string, bool>)
    decreases |keys|
    ensures forall k :: k in keys ==> k in r && r[k]
    ensures forall k :: k !in keys ==> (k in r <==> k in m)
    ensures forall k :: k !in keys && k in m ==> r[k] == m[k]
  {
    if keys == [] then m
    else SetAll(m, keys[..|keys| - 1])[keys[|keys| - 1] := true]
  }

  /** The "enter"/" " update: flip the flag, reading a missing key as false. */
  function Toggle(m: map<string, bool>, k: string): map<string, bool>
  {
    m[k := !Lookup(m, k)]
  }

  /** Toggling the same key twice restores every lookup; the map itself keeps
      an explicit false for a key it did not hold before. */
  lemma ToggleTwice(m: map<string, bool>, key: string)
    ensures forall k :: Lookup(Toggle(Toggle(m, key), key), k) == Lookup(m, k)
    ensures key !in m ==> Toggle(Toggle(m, key), key) == m[key := false]
    ensures key in m ==> Toggle(Toggle(m, key), key) == m
  {
  }

  /** The splice of "d": the list without its i-th entry. */
  function RemoveAt<T>(s: seq<T>, i: int): (r: seq<T>)
    requires 0 <= i < |s|
    ensures |r| == |s| - 1
    ensures forall j :: 0 <= j < i ==> r[j] == s[j]
    ensures forall j :: i <= j < |r| ==> r[j] == s[j + 1]
  {
    s[..i] + s[i + 1..]
  }

  /** Deleting takes out exactly one entry and keeps all the others. */
  lemma RemoveAtMultiset<T>(s: seq<T>, i: int)
    requires 0 <= i < |s|
    ensures multiset(RemoveAt(s, i)) + multiset{s[i]} == multiset(s)
  {
    assert s == s[..i] + [s[i]] + s[i + 1..];
  }

  /** With distinct keys, deleting a repository keeps the keys distinct and
      leaves its key untracked. */
  lemma RemoveAtDistinct(rs: seq<RepoConfig>, i: int)
    requires 0 <= i < |rs|
    requires Distinct(KeysOf(rs))
    ensures Distinct(KeysOf(RemoveAt(rs, i)))
    ensures Key(rs[i]) !in KeysOf(RemoveAt(rs, i))
  {
    var ks := KeysOf(RemoveAt(rs, i));
    forall j | 0 <= j < |ks|
      ensures ks[j] != Key(rs[i])
    {
      if j < i {
        assert ks[j] == Key(rs[j]);
      } else {
        assert ks[j] == Key(rs[j + 1]);
      }
    }
  }

  /** handleAddRepo only appends a key the list does not already hold, so
      distinct keys stay distinct. */
  lemma AppendDistinct(rs: seq<RepoConfig>, r: RepoConfig)
    requires Distinct(KeysOf(rs)) && Key(r) !in KeysOf(rs)
    ensures Distinct(KeysOf(rs + [r]))
  {
    var ks := KeysOf(rs + [r]);
    forall i, j | 0 <= i < j < |ks|
      ensures ks[i] != ks[j]
    {
      assert ks[i] == KeysOf(rs)[i];
      if j < |rs| {
        assert ks[j] == KeysOf(rs)[j];
      }
    }
  }

  /** The background check that checkRepo returns for a repository. */
  function TaskFor(r: RepoConfig): CheckTask
  {
    CheckTask(r.owner, r.repo, Key(r))
  }

  function TasksFor(rs: seq<RepoConfig>): (ts: seq<CheckTask>)
    ensures |ts| == |rs|
    ensures forall i :: 0 <= i < |rs| ==> ts[i] == TaskFor(rs[i])
  {
    seq(|rs|, i requires 0 <= i < |rs| => TaskFor(rs[i]))
  }

  /** The guard the source puts on the row actions (R, enter/space, d, o). */
  predicate RowGuardAsWritten(cursor: int, count: int)
  {
    count > 0 && cursor < count
  }

  /** The guard the row actions need: the cursor names a row. */
  predicate RowSelectable(cursor: int, count: int)
  {
    0 <= cursor < count
  }

  /** The two guards disagree exactly on a negative cursor over a non-empty list. */
  lemma GuardsDisagreeBelowZero(cursor: int, count: int)
    ensures RowGuardAsWritten(cursor, count) && !RowSelectable(cursor, count)
      <==> cursor < 0 && count > 0
  {
  }

  const HelpText: string :=
    "enter/space=expand  E=expand all  C=collapse all  r=refresh all  R=refresh row  a=add  d=delete  o=browser  j/k=move  q=quit"

  /** The value fields of the dashboard model (everything but the form). */
  datatype State = State(
    repos: seq<RepoConfig>,
    results: map<string, RepoStatus>,
    loading: map<string, bool>,
    expanded: map<string, bool>,
    cursor: int,
    width: int,
    height: int,
    showModal: bool,
    statusMsg: string,
    noAuth: bool)

  /** Where "d" leaves a cursor that pointed at the deleted row of a list that
      now has `count` rows. */
  function CursorAfterDelete(cursor: int, count: int): (c: int)
    ensures c == cursor || c == cursor - 1
    ensures 0 <= cursor <= count ==> 0 <= c && (c < count || c == 0)
  {
    if cursor >= count && cursor > 0 then cursor - 1 else cursor
  }

  /** The cursor is -1 (after "G" on an empty list) or at most the last row,
      or 0 on an empty list. */
  predicate CursorInBounds(cursor: int, count: int)
  {
    -1 <= cursor && (cursor < count || cursor == 0)
  }

  /** The cases of handleKey's switch. */
  datatype KeyAction =
    | QuitKey | CursorUp | CursorDown | CursorTop | CursorBottom
    | RefreshAll | RefreshRow | ToggleRow | ExpandEvery | CollapseEvery
    | OpenForm | DeleteRow | OpenInBrowser | ShowHelp | NoAction

  function ActionOf(key: string): (a: KeyAction)
    ensures a == QuitKey <==> key in {"q", "ctrl+c"}
    ensures a == CursorUp <==> key in {"up", "k"}
    ensures a == CursorDown <==> key in {"down", "j"}
    ensures a == CursorTop <==> key == "g"
    ensures a == CursorBottom <==> key == "G"
    ensures a == RefreshAll <==> key == "r"
    ensures a == RefreshRow <==> key == "R"
    ensures a == ToggleRow <==> key in {"enter", " "}
    ensures a == ExpandEvery <==> key == "E"
    ensures a == CollapseEvery <==> key == "C"
    ensures a == OpenForm <==> key == "a"
    ensures a == DeleteRow <==> key == "d"
    ensures a == OpenInBrowser <==> key == "o"
    ensures a == ShowHelp <==> key == "?"
  {
    if key == "q" || key == "ctrl+c" then QuitKey
    else if key == "up" || key == "k" then CursorUp
    else if key == "down" || key == "j" then CursorDown
    else if key == "g" then CursorTop
    else if key == "G" then CursorBottom
    else if key == "r" then RefreshAll
    else if key == "R" then RefreshRow
    else if key == "enter" || key == " " then ToggleRow
    else if key == "E" then ExpandEvery
    else if key == "C" then CollapseEvery
    else if key == "a" then OpenForm
    else if key == "d" then DeleteRow
    else if key == "o" then OpenInBrowser
    else if key == "?" then ShowHelp
    else NoAction
  }

  /** What a key does to the dashboard's value fields, and the command it
      returns. Row actions act only when the cursor names a row. */
  function KeyStep(st: State, a: KeyAction): (r: (State, Effect))
    ensures r.0.width == st.width && r.0.height == st.height && r.0.noAuth == st.noAuth
    ensures r.1 == Quit <==> a == QuitKey
  {
    var n := |st.repos|;
    var c := st.cursor;
    match a
    case QuitKey => (st, Quit)
    case CursorUp => (st.(cursor := if c > 0 then c - 1 else c), NoEffect)
    case CursorDown => (st.(cursor := if c < n - 1 then c + 1 else c), NoEffect)
    case CursorTop => (st.(cursor := 0), NoEffect)
    case CursorBottom => (st.(cursor := n - 1), NoEffect)
    case RefreshAll =>
      (st.(loading := SetAll(st.loading, KeysOf(st.repos)), statusMsg := "Refreshing all..."),
       Checks(TasksFor(st.repos)))
    case RefreshRow =>
      if !RowSelectable(c, n) then (st, NoEffect)
      else
        var r := st.repos[c];
        (st.(loading := st.loading[Key(r) := true], statusMsg := "Refreshing " + r.owner + "/" + r.repo + "..."),
         Checks([TaskFor(r)]))
    case ToggleRow =>
      if !RowSelectable(c, n) then (st, NoEffect)
      else (st.(expanded := Toggle(st.expanded, Key(st.repos[c]))), NoEffect)
    case ExpandEvery => (st.(expanded := SetAll(st.expanded, KeysOf(st.repos))), NoEffect)
    case CollapseEvery => (st.(expanded := map[]), NoEffect)
    case OpenForm => (st.(showModal := true), NoEffect)
    case DeleteRow =>
      if !RowSelectable(c, n) then (st, NoEffect)
      else
        var r := st.repos[c];
        (st.(repos := RemoveAt(st.repos, c),
             results := st.results - {Key(r)},
             loading := st.loading - {Key(r)},
             cursor := CursorAfterDelete(c, n - 1),
             statusMsg := "Removed " + r.owner + "/" + r.repo),
         NoEffect)
    case OpenInBrowser =>
      if !RowSelectable(c, n) then (st, NoEffect)
      else (st, Browse("https://github.com/" + st.repos[c].owner + "/" + st.repos[c].repo))
    case ShowHelp => (st.(statusMsg := HelpText), NoEffect)
    case NoAction => (st, NoEffect)
  }

  /** Only "d" on a selected row changes the list or the results; only "r",
      and "R" on a selected row, start checks; only "o" on a selected row
      opens the browser; no key delivers a message. */
  lemma KeyStepEffects(st: State, a: KeyAction)
    ensures var (s, e) := KeyStep(st, a);
      && s.showModal == (st.showModal || a == OpenForm)
      && (s.repos != st.repos ==> a == DeleteRow && RowSelectable(st.cursor, |st.repos|))
      && (s.results != st.results ==> a == DeleteRow && RowSelectable(st.cursor, |st.repos|))
      && (e.Checks? <==> a == RefreshAll || (a == RefreshRow && RowSelectable(st.cursor, |st.repos|)))
      && (e.Browse? <==> a == OpenInBrowser && RowSelectable(st.cursor, |st.repos|))
      && !e.Deliver?
  {
  }

  /** No key takes the cursor out of its bounds. */
  lemma KeyStepKeepsCursorInBounds(st: State, a: KeyAction)
    requires CursorInBounds(st.cursor, |st.repos|)
    ensures CursorInBounds(KeyStep(st, a).0.cursor, |KeyStep(st, a).0.repos|)
  {
  }

  /** Only the four cursor keys move the cursor, and they change nothing
      else. "up" and "down" step by one and only within the list; "g" goes
      to 0 and "G" to the last row, which is -1 on an empty list. */
  lemma CursorKeys(st: State, a: KeyAction)
    ensures a !in {CursorUp, CursorDown, CursorTop, CursorBottom, DeleteRow} ==>
      KeyStep(st, a).0.cursor == st.cursor
    ensures a in {CursorUp, CursorDown, CursorTop, CursorBottom} ==>
      KeyStep(st, a) == (st.(cursor := KeyStep(st, a).0.cursor), NoEffect)
    ensures a == CursorUp ==>
      (KeyStep(st, a).0.cursor == st.cursor - 1 <==> st.cursor > 0)
      && KeyStep(st, a).0.cursor >= st.cursor - 1
    ensures a == CursorDown ==>
      (KeyStep(st, a).0.cursor == st.cursor + 1 <==> st.cursor < |st.repos| - 1)
      && KeyStep(st, a).0.cursor <= st.cursor + 1
    ensures a == CursorTop ==> KeyStep(st, a).0.cursor == 0
    ensures a == CursorBottom ==> KeyStep(st, a).0.cursor == |st.repos| - 1
    ensures a == CursorBottom && st.repos == [] ==> KeyStep(st, a).0.cursor == -1
    ensures RowSelectable(st.cursor, |st.repos|) && a in {CursorUp, CursorDown} ==>
      RowSelectable(KeyStep(st, a).0.cursor, |st.repos|)
  {
  }

  /** The row actions do nothing unless the cursor names a row. */
  lemma RowActionsNeedSelection(st: State, a: KeyAction)
    requires a in {RefreshRow, ToggleRow, DeleteRow, OpenInBrowser}
    requires !RowSelectable(st.cursor, |st.repos|)
    ensures KeyStep(st, a) == (st, NoEffect)
  {
  }

  /** "d" removes exactly the selected entry and keeps the order of the
      rest; with distinct keys, the keys stay distinct and the deleted key is
      no longer tracked. */
  lemma {:induction false} DeleteRowRepos(st: State)
    requires RowSelectable(st.cursor, |st.repos|)
    ensures var rs := KeyStep(st, DeleteRow).0.repos;
      var c := st.cursor;
      && |rs| == |st.repos| - 1
      && rs[..c] == st.repos[..c] && rs[c..] == st.repos[c + 1..]
      && multiset(rs) + multiset{st.repos[c]} == multiset(st.repos)
      && (Distinct(KeysOf(st.repos)) ==> Distinct(KeysOf(rs)) && Key(st.repos[c]) !in KeysOf(rs))
  {
    var c := st.cursor;
    var rs := KeyStep(st, DeleteRow).0.repos;
    assert rs == RemoveAt(st.repos, c);
    RemoveAtMultiset(st.repos, c);
    if Distinct(KeysOf(st.repos)) {
      RemoveAtDistinct(st.repos, c);
    }
  }

  /** "d" drops the selected key's result and loading mark and nothing
      else's, keeps its expanded flag, and moves the cursor back only when
      it was past the new last row and above 0. */
  lemma DeleteRowMaps(st: State)
    requires RowSelectable(st.cursor, |st.repos|)
    ensures var s := KeyStep(st, DeleteRow).0;
      var key := Key(st.repos[st.cursor]);
      && key !in s.results && key !in s.loading && s.expanded == st.expanded
      && (forall k :: k != key ==> LookupResult(s.results, k) == LookupResult(st.results, k))
      && (forall k :: k != key ==> Lookup(s.loading, k) == Lookup(st.loading, k))
      && (s.cursor < st.cursor <==> st.cursor >= |s.repos| && st.cursor > 0)
  {
  }

  /** Pressing enter twice on the same row restores every expanded lookup
      and nothing else changes. */
  lemma {:induction false} ToggleRowTwice(st: State)
    requires RowSelectable(st.cursor, |st.repos|)
    ensures var s2 := KeyStep(KeyStep(st, ToggleRow).0, ToggleRow).0;
      && s2 == st.(expanded := s2.expanded)
      && forall k :: Lookup(s2.expanded, k) == Lookup(st.expanded, k)
  {
    ToggleTwice(st.expanded, Key(st.repos[st.cursor]));
  }

  /** "E" expands every tracked row and keeps other flags; "C" collapses all. */
  lemma ExpandAndCollapse(st: State)
    ensures forall k :: k in KeysOf(st.repos) ==> Lookup(KeyStep(st, ExpandEvery).0.expanded, k)
    ensures forall k :: k !in KeysOf(st.repos) ==>
      Lookup(KeyStep(st, ExpandEvery).0.expanded, k) == Lookup(st.expanded, k)
    ensures forall k :: !Lookup(KeyStep(st, CollapseEvery).0.expanded, k)
  {
  }

  /** "r" marks every tracked key loading and starts one check per row,
      whether or not one is running; "R" does so for the selected row only. */
  lemma RefreshKeys(st: State)
    ensures var (s, e) := KeyStep(st, RefreshAll);
      && e.Checks? && |e.tasks| == |st.repos|
      && (forall i :: 0 <= i < |st.repos| ==> e.tasks[i].key == Key(st.repos[i]))
      && (forall k :: k in KeysOf(st.repos) ==> Lookup(s.loading, k))
      && s.results == st.results && s.repos == st.repos
    ensures RowSelectable(st.cursor, |st.repos|) ==>
      var (s, e) := KeyStep(st, RefreshRow);
      var key := Key(st.repos[st.cursor]);
      && e == Checks([CheckTask(st.repos[st.cursor].owner, st.repos[st.cursor].repo, key)])
      && Lookup(s.loading, key)
      && (forall k :: k != key ==> Lookup(s.loading, k) == Lookup(st.loading, k))
  {
  }

  class Model {
    var repos: seq<RepoConfig>
    var results: map<string, RepoStatus>
    var loading: map<string, bool>
    var expanded: map<string, bool>
    var cursor: int
    var width: int
    var height: int
    var showModal: bool
    var modal: AddRepoModal
    var statusMsg: string
    var noAuth: bool

    ghost function Data(): State
      reads this
    {
      State(repos, results, loading, expanded, cursor, width, height, showModal, statusMsg, noAuth)
    }

    /** The cursor is -1 (after "G" on an empty list) or at most the last row
        (or 0 on an empty list); an open form is well formed. */
    ghost predicate Valid()
      reads this, modal
    {
      && CursorInBounds(cursor, |repos|)
      && (showModal ==> modal.Valid())
    }

    /** New: empty maps, cursor 0, no form. noAuth is whether the client
        found no token. */
    constructor (repos: seq<RepoConfig>, noAuth: bool)
      ensures Valid()
      ensures Data() == State(repos, map[], map[], map[], 0, 0, 0, false, "", noAuth)
      ensures fresh(modal) && fresh(modal.inputs)
    {
      this.repos := repos;
      results := map[];
      loading := map[];
      expanded := map[];
      cursor := 0;
      width := 0;
      height := 0;
      showModal := false;
      modal := new AddRepoModal.Zero();
      statusMsg := "";
      this.noAuth := noAuth;
    }

    /** checkRepo: mark the key loading now; the check itself runs later. */
    method CheckRepo(owner: string, repo: string) returns (task: CheckTask)
      modifies this`loading
      ensures loading == old(loading)[RepoKey(owner, repo) := true]
      ensures task == CheckTask(owner, repo, RepoKey(owner, repo))
    {
      var key := RepoKey(owner, repo);
      loading := loading[key := true];
      task := CheckTask(owner, repo, key);
    }

    /** The loop shared by Init and "r": one check per tracked repository,
        each key marked loading, whether or not a check is already running. */
    method CheckAll() returns (tasks: seq<CheckTask>)
      modifies this`loading
      ensures tasks == TasksFor(repos)
      ensures loading == SetAll(old(loading), KeysOf(repos))
    {
      tasks := [];
      for i := 0 to |repos|
        invariant tasks == TasksFor(repos[..i])
        invariant loading == SetAll(old(loading), KeysOf(repos[..i]))
      {
        assert KeysOf(repos[..i + 1])[..i] == KeysOf(repos[..i]);
        var t := CheckRepo(repos[i].owner, repos[i].repo);
        tasks := tasks + [t];
      }
      assert repos[..|repos|] == repos;
    }

    method Init() returns (effect: Effect)
      modifies this`loading
      ensures effect == Checks(TasksFor(repos))
      ensures loading == SetAll(old(loading), KeysOf(repos))
    {
      var tasks := CheckAll();
      effect := Checks(tasks);
    }

    /** The "E" loop: every tracked key expanded, other entries kept. */
    method ExpandAll()
      modifies this`expanded
      ensures expanded == SetAll(old(expanded), KeysOf(repos))
    {
      for i := 0 to |repos|
        invariant expanded == SetAll(old(expanded), KeysOf(repos[..i]))
      {
        assert KeysOf(repos[..i + 1])[..i] == KeysOf(repos[..i]);
        expanded := expanded[Key(repos[i]) := true];
      }
      assert repos[..|repos|] == repos;
    }

    /** "d" on the selected row. */
    method DeleteSelected()
      requires RowSelectable(cursor, |repos|)
      modifies this
      ensures var c := old(cursor);
        var r := old(repos)[c];
        Data() == old(Data()).(
          repos := RemoveAt(old(repos), c),
          results := old(results) - {Key(r)},
          loading := old(loading) - {Key(r)},
          cursor := CursorAfterDelete(c, |old(repos)| - 1),
          statusMsg := "Removed " + r.owner + "/" + r.repo)
      ensures unchanged(`modal)
    {
      var r := repos[cursor];
      var key := RepoKey(r.owner, r.repo);
      repos := repos[..cursor] + repos[cursor + 1..];
      results := results - {key};
      loading := loading - {key};
      if cursor >= |repos| && cursor > 0 {
        cursor := cursor - 1;
      }
      statusMsg := "Removed " + r.owner + "/" + r.repo;
    }

    /** Opening the form ("a"): a new form sized to the terminal. */
    method ShowForm()
      modifies this`showModal, this`modal
      ensures showModal && fresh(modal) && fresh(modal.inputs)
      ensures modal.Valid() && modal.FocusConsistent() && modal.focused == FieldOwner
      ensures modal.width == width && modal.height == height
    {
      showModal := true;
      modal := new AddRepoModal(width, height);
    }

    /** handleKey, for a model whose form is closed: the new state and the
        command are those KeyStep gives for the key's action. */
    method HandleKey(key: string) returns (effect: Effect)
      requires Valid() && !showModal
      modifies this
      ensures Valid()
      ensures (Data(), effect) == KeyStep(old(Data()), ActionOf(key))
      ensures ActionOf(key) == OpenForm ==>
        && fresh(modal) && fresh(modal.inputs) && modal.focused == FieldOwner
        && modal.width == old(width) && modal.height == old(height)
      ensures ActionOf(key) != OpenForm ==> modal == old(modal)
    {
      effect := Perform(ActionOf(key));
    }

    /** The switch of handleKey, on the key's action. */
    method Perform(action: KeyAction) returns (effect: Effect)
      requires Valid() && !showModal
      modifies this
      ensures Valid()
      ensures (Data(), effect) == KeyStep(old(Data()), action)
      ensures action == OpenForm ==>
        && fresh(modal) && fresh(modal.inputs) && modal.focused == FieldOwner
        && modal.width == old(width) && modal.height == old(height)
      ensures action != OpenForm ==> modal == old(modal)
    {
      KeyStepKeepsCursorInBounds(Data(), action);
      if action in {CursorUp, CursorDown, CursorTop, CursorBottom} {
        MoveCursor(action);
        effect := NoEffect;
      } else if action in {RefreshRow, ToggleRow, DeleteRow, OpenInBrowser} {
        effect := RowAction(action);
      } else {
        effect := ListAction(action);
      }
    }

    /** The keys of handleKey that act on the whole list or the screen. */
    method ListAction(a: KeyAction) returns (effect: Effect)
      requires a in {QuitKey, RefreshAll, ExpandEvery, CollapseEvery, OpenForm, ShowHelp, NoAction}
      modifies this
      ensures (Data(), effect) == KeyStep(old(Data()), a)
      ensures a == OpenForm ==>
        && fresh(modal) && fresh(modal.inputs) && modal.Valid() && modal.focused == FieldOwner
        && modal.width == old(width) && modal.height == old(height)
      ensures a != OpenForm ==> modal == old(modal)
    {
      effect := NoEffect;
      match a {
        case QuitKey =>
          effect := Quit;
        case RefreshAll =>
          var tasks := CheckAll();
          statusMsg := "Refreshing all...";
          effect := Checks(tasks);
        case ExpandEvery =>
          ExpandAll();
        case CollapseEvery =>
          expanded := map[];
        case OpenForm =>
          ShowForm();
        case ShowHelp =>
          statusMsg := HelpText;
        case NoAction =>
      }
    }

    /** The cursor keys of handleKey. */
    method MoveCursor(a: KeyAction)
      requires a in {CursorUp, CursorDown, CursorTop, CursorBottom}
      modifies this`cursor
      ensures (Data(), NoEffect) == KeyStep(old(Data()), a)
    {
      match a {
        case CursorUp =>
          if cursor > 0 {
            cursor := cursor - 1;
          }
        case CursorDown =>
          if cursor < |repos| - 1 {
            cursor := cursor + 1;
          }
        case CursorTop =>
          cursor := 0;
        case CursorBottom =>
          cursor := |repos| - 1;
      }
    }

    /** The row actions of handleKey, each guarded by the cursor naming a row. */
    method RowAction(a: KeyAction) returns (effect: Effect)
      requires a in {RefreshRow, ToggleRow, DeleteRow, OpenInBrowser}
      modifies this
      ensures (Data(), effect) == KeyStep(old(Data()), a)
      ensures modal == old(modal)
    {
      effect := NoEffect;
      if !(0 <= cursor < |repos|) {
        return;
      }
      match a {
        case RefreshRow =>
          var r := repos[cursor];
          statusMsg := "Refreshing " + r.owner + "/" + r.repo + "...";
          var t := CheckRepo(r.owner, r.repo);
          effect := Checks([t]);
        case ToggleRow =>
          var k := RepoKey(repos[cursor].owner, repos[cursor].repo);
          expanded := expanded[k := !Lookup(expanded, k)];
        case DeleteRow =>
          DeleteSelected();
        case OpenInBrowser =>
          var r := repos[cursor];
          effect := Browse("https://github.com/" + r.owner + "/" + r.repo);
      }
    }

    /** handleAddRepo: close the form; refuse a key already tracked, or
        append the repository and start its check. */
    method HandleAddRepo(res: AddRepoResult) returns (effect: Effect)
      requires Valid()
      modifies this
      ensures Valid() && fresh(modal) && fresh(modal.inputs) && modal.inputs.Length == 0
      ensures var key := RepoKey(res.owner, res.repo);
        key in KeysOf(old(repos)) ==>
          && effect == NoEffect
          && Data() == old(Data()).(showModal := false, statusMsg := "Repo " + key + " already tracked")
      ensures var key := RepoKey(res.owner, res.repo);
        key !in KeysOf(old(repos)) ==>
          && effect == Checks([CheckTask(res.owner, res.repo, key)])
          && Data() == old(Data()).(
               repos := old(repos) + [RepoConfig(res.owner, res.repo, res.notes)],
               loading := old(loading)[key := true],
               showModal := false,
               statusMsg := "Added " + key)
    {
      showModal := false;
      modal := new AddRepoModal.Zero();
      var key := RepoKey(res.owner, res.repo);
      for i := 0 to |repos|
        invariant key !in KeysOf(repos)[..i]
      {
        if RepoKey(repos[i].owner, repos[i].repo) == key {
          statusMsg := "Repo " + key + " already tracked";
          return NoEffect;
        }
      }
      assert KeysOf(repos)[..|repos|] == KeysOf(repos);
      repos := repos + [RepoConfig(res.owner, res.repo, res.notes)];
      statusMsg := "Added " + key;
      var t := CheckRepo(res.owner, res.repo);
      effect := Checks([t]);
    }

    /** Update. An open form takes every message: a submit or cancel closes
        it, anything else (a finished check included) goes to the form and
        leaves the dashboard as it was. With the form closed, a finished
        check replaces its key's result and clears its loading mark, whether
        or not the key is still tracked. */
    method Update(msg: Msg, edit: (TextInput, Msg) -> TextInput) returns (effect: Effect)
      requires Valid()
      modifies this, modal, modal.inputs
      ensures Valid()
      ensures (modal == old(modal) && modal.inputs == old(modal.inputs)) || (fresh(modal) && fresh(modal.inputs))
      ensures old(showModal) && msg.ModalSubmitMsg? ==>
        var res := msg.submitted;
        var key := RepoKey(res.owner, res.repo);
        && !showModal
        && (key in KeysOf(old(repos)) ==>
              (effect == NoEffect
               && Data() == old(Data()).(showModal := false, statusMsg := "Repo " + key + " already tracked")))
        && (key !in KeysOf(old(repos)) ==>
              (effect == Checks([CheckTask(res.owner, res.repo, key)])
               && Data() == old(Data()).(
                    repos := old(repos) + [RepoConfig(res.owner, res.repo, res.notes)],
                    loading := old(loading)[key := true],
                    showModal := false,
                    statusMsg := "Added " + key)))
      ensures old(showModal) && msg.ModalCancelMsg? ==>
        effect == NoEffect && Data() == old(Data()).(showModal := false)
        && fresh(modal) && modal.inputs.Length == 0
      ensures old(showModal) && !msg.ModalSubmitMsg? && !msg.ModalCancelMsg? ==>
        && Data() == old(Data())
        && modal == old(modal)
        && (effect == NoEffect || effect == Deliver(ModalCancelMsg)
            || (effect.Deliver? && effect.msg.ModalSubmitMsg?
                && effect.msg.submitted.owner != "" && effect.msg.submitted.repo != ""))
      ensures !old(showModal) && msg.KeyMsg? ==>
        (Data(), effect) == KeyStep(old(Data()), ActionOf(msg.key))
      ensures !old(showModal) && msg.WindowSizeMsg? ==>
        effect == NoEffect && Data() == old(Data()).(width := msg.width, height := msg.height)
      ensures !old(showModal) && msg.RepoLoadingMsg? ==>
        effect == NoEffect && Data() == old(Data()).(loading := old(loading)[msg.loadingKey := true])
      ensures !old(showModal) && msg.RepoCheckedMsg? ==>
        effect == NoEffect
        && Data() == old(Data()).(loading := old(loading) - {msg.checkedKey},
                                  results := old(results)[msg.checkedKey := msg.result])
      ensures !old(showModal) && (msg.SpinnerTickMsg? || msg.ModalSubmitMsg? || msg.ModalCancelMsg?) ==>
        effect == NoEffect && Data() == old(Data())
    {
      if showModal {
        effect := UpdateForm(msg, edit);
      } else {
        effect := UpdateDashboard(msg);
      }
    }

    /** The branch of Update taken while the form is open. */
    method UpdateForm(msg: Msg, edit: (TextInput, Msg) -> TextInput) returns (effect: Effect)
      requires Valid() && showModal
      modifies this, modal, modal.inputs
      ensures Valid()
      ensures (modal == old(modal) && modal.inputs == old(modal.inputs)) || (fresh(modal) && fresh(modal.inputs))
      ensures msg.ModalSubmitMsg? ==>
        var res := msg.submitted;
        var key := RepoKey(res.owner, res.repo);
        && !showModal
        && (key in KeysOf(old(repos)) ==>
              (effect == NoEffect
               && Data() == old(Data()).(showModal := false, statusMsg := "Repo " + key + " already tracked")))
        && (key !in KeysOf(old(repos)) ==>
              (effect == Checks([CheckTask(res.owner, res.repo, key)])
               && Data() == old(Data()).(
                    repos := old(repos) + [RepoConfig(res.owner, res.repo, res.notes)],
                    loading := old(loading)[key := true],
                    showModal := false,
                    statusMsg := "Added " + key)))
      ensures msg.ModalCancelMsg? ==>
        effect == NoEffect && Data() == old(Data()).(showModal := false)
        && fresh(modal) && modal.inputs.Length == 0
      ensures !msg.ModalSubmitMsg? && !msg.ModalCancelMsg? ==>
        && Data() == old(Data())
        && modal == old(modal)
        && (effect == NoEffect || effect == Deliver(ModalCancelMsg)
            || (effect.Deliver? && effect.msg.ModalSubmitMsg?
                && effect.msg.submitted.owner != "" && effect.msg.submitted.repo != ""))
    {
      if msg.ModalSubmitMsg? {
        effect := HandleAddRepo(msg.submitted);
      } else if msg.ModalCancelMsg? {
        showModal := false;
        modal := new AddRepoModal.Zero();
        effect := NoEffect;
      } else {
        var cmd := modal.Update(msg, edit);
        match cmd {
          case Idle => effect := NoEffect;
          case Cancel => effect := Deliver(ModalCancelMsg);
          case Submit(r) => effect := Deliver(ModalSubmitMsg(r));
        }
      }
    }

    /** The branch of Update taken while the form is closed. */
    method UpdateDashboard(msg: Msg) returns (effect: Effect)
      requires Valid() && !showModal
      modifies this
      ensures Valid()
      ensures modal == old(modal) || (fresh(modal) && fresh(modal.inputs))
      ensures msg.KeyMsg? ==> (Data(), effect) == KeyStep(old(Data()), ActionOf(msg.key))
      ensures msg.WindowSizeMsg? ==>
        effect == NoEffect && Data() == old(Data()).(width := msg.width, height := msg.height)
      ensures msg.RepoLoadingMsg? ==>
        effect == NoEffect && Data() == old(Data()).(loading := old(loading)[msg.loadingKey := true])
      ensures msg.RepoCheckedMsg? ==>
        effect == NoEffect
        && Data() == old(Data()).(loading := old(loading) - {msg.checkedKey},
                                  results := old(results)[msg.checkedKey := msg.result])
      ensures msg.SpinnerTickMsg? || msg.ModalSubmitMsg? || msg.ModalCancelMsg? ==>
        effect == NoEffect && Data() == old(Data())
    {
      effect := NoEffect;
      match msg {
        case WindowSizeMsg(w, h) =>
          width := w;
          height := h;
        case RepoLoadingMsg(k) =>
          loading := loading[k := true];
        case RepoCheckedMsg(k, result) =>
          loading := loading - {k};
          results := results[k := result];
        case KeyMsg(key) =>
          effect := HandleKey(key);
        case _ =>
      }
    }
  }

  /** "G" on an empty list, then adding a repository through the form,
      leaves the cursor at -1 over a one-row list: the source's guard lets
      the row actions through there, and its repos[cursor] is out of range. */
  method NegativeCursorScenario() returns (cursor: int, count: int)
    ensures cursor == -1 && count == 1
    ensures RowGuardAsWritten(cursor, count) && !RowSelectable(cursor, count)
  {
    var keep := (t: TextInput, m: Msg) => t;
    var m := new Model([], false);
    assert ActionOf("G") == CursorBottom;
    var e := m.Update(KeyMsg("G"), keep);
    assert m.cursor == -1 && m.repos == [] && !m.showModal;
    assert ActionOf("a") == OpenForm;
    e := m.Update(KeyMsg("a"), keep);
    assert m.cursor == -1 && m.repos == [] && m.showModal;
    e := m.Update(ModalSubmitMsg(AddRepoResult("acme", "api", "")), keep);
    cursor, count := m.cursor, |m.repos|;
  }

  /** rowHeight: how many terminal lines a row takes. */
  function RowHeight(key: string, expanded: bool, results: map<string, RepoStatus>): (h: int)
    ensures h >= 1
    ensures h > 1 <==> expanded && key in results && results[key].status == StatusBehind
                       && |results[key].commits| > 0
  {
    if !expanded then 1
    else if key !in results || results[key].status != StatusBehind || |results[key].commits| == 0 then 1
    else
      var res := results[key];
      var h := 1 + |res.commits|;
      if res.commitsAhead > |res.commits| then h + 1 else h
  }

  /** rowHeight agrees with the number of lines RenderRow draws for the row. */
  lemma RowHeightMatchesRenderRow(key: string, expanded: bool, results: map<string, RepoStatus>)
    ensures RowHeight(key, expanded, results) == Table.RowLineCount(LookupResult(results, key), expanded)
  {
  }

  /** The row heights of a list, as scrollWindow measures them. */
  function Heights(repos: seq<RepoConfig>, expanded: map<string, bool>,
                   results: map<string, RepoStatus>): (hs: seq<nat>)
    ensures |hs| == |repos|
    ensures forall i :: 0 <= i < |repos| ==>
      hs[i] == RowHeight(Key(repos[i]), Lookup(expanded, Key(repos[i])), results)
  {
    seq(|repos|, i requires 0 <= i < |repos| =>
      var h: nat := RowHeight(Key(repos[i]), Lookup(expanded, Key(repos[i])), results); h)
  }

  function Sum(hs: seq<nat>): nat
  {
    if hs == [] then 0 else Sum(hs[..|hs| - 1]) + hs[|hs| - 1]
  }

  /** Where a forward pass from row `start` stops: after the first row that
      brings the used height to `budget`, or at the end of the list. */
  function FillEnd(hs: seq<nat>, start: nat, budget: int): nat
    decreases |hs| - start
  {
    if start < |hs| && budget > 0 then FillEnd(hs, start + 1, budget - hs[start]) else start
  }

  /** A forward pass never goes back or past the list, takes at least one row
      when there is one and any budget; it stops early only once the rows
      taken fill the budget, and every row but the last taken fits. */
  lemma {:induction false} FillEndBounds(hs: seq<nat>, start: nat, budget: int)
    requires start <= |hs|
    ensures var e := FillEnd(hs, start, budget);
      && start <= e <= |hs|
      && (start < |hs| && budget > 0 ==> start < e)
      && (e < |hs| ==> Sum(hs[start..e]) >= budget)
      && (start < e ==> Sum(hs[start..e - 1]) < budget)
    decreases |hs| - start
  {
    var e := FillEnd(hs, start, budget);
    if start < |hs| && budget > 0 {
      FillEndBounds(hs, start + 1, budget - hs[start]);
      SumCons(hs[start..e]);
      assert hs[start..e][1..] == hs[start + 1..e];
      assert hs[start..e][0] == hs[start];
      if start + 1 < e {
        SumCons(hs[start..e - 1]);
        assert hs[start..e - 1][1..] == hs[start + 1..e - 1];
      } else {
        assert hs[start..e - 1] == [];
      }
    } else {
      assert hs[start..e] == [];
    }
  }

  lemma {:induction false} SumCons(hs: seq<nat>)
    requires hs != []
    ensures Sum(hs) == hs[0] + Sum(hs[1..])
    decreases |hs|
  {
    if |hs| > 1 {
      SumCons(hs[..|hs| - 1]);
      assert hs[..|hs| - 1][1..] == hs[1..][..|hs[1..]| - 1];
    } else {
      assert hs[..|hs| - 1] == [];
      assert hs[1..] == [];
    }
  }

  /** Go's integer division, which truncates toward zero. */
  function GoDiv(a: int, b: int): int
    requires b > 0
  {
    if a >= 0 then a / b else -((-a) / b)
  }

  /** The forward pass of scrollWindow from `start`. */
  method FillFrom(repos: seq<RepoConfig>, expanded: map<string, bool>, results: map<string, RepoStatus>,
                  start: nat, height: int) returns (end: nat)
    ensures end == FillEnd(Heights(repos, expanded, results), start, height)
  {
    ghost var hs := Heights(repos, expanded, results);
    var used := 0;
    end := start;
    while end < |repos| && used < height
      invariant start <= end
      invariant FillEnd(hs, end, height - used) == FillEnd(hs, start, height)
      decreases |repos| - end
    {
      var key := RepoKey(repos[end].owner, repos[end].repo);
      used := used + RowHeight(key, Lookup(expanded, key), results);
      end := end + 1;
    }
  }

  /** scrollWindow: the rows [start, end) to draw, centred on the cursor when
      it can be, else starting at the cursor. */
  method ScrollWindow(cursor: int, repos: seq<RepoConfig>, expanded: map<string, bool>,
                      results: map<string, RepoStatus>, height: int) returns (start: int, end: int)
    ensures repos == [] ==> start == 0 && end == 0
    ensures repos != [] ==>
      var hs := Heights(repos, expanded, results);
      var centred := Max(cursor - GoDiv(height, 2), 0);
      if cursor < FillEnd(hs, centred, height) then start == centred && end == FillEnd(hs, centred, height)
      else start == cursor && end == FillEnd(hs, cursor, height)
    ensures 0 <= cursor < |repos| && height >= 1 ==> 0 <= start <= cursor < end <= |repos|
  {
    ghost var hs := Heights(repos, expanded, results);
    if |repos| == 0 {
      return 0, 0;
    }
    start := cursor - GoDiv(height, 2);
    if start < 0 {
      start := 0;
    }
    end := FillFrom(repos, expanded, results, start, height);
    if start <= |repos| {
      FillEndBounds(hs, start, height);
    }
    if cursor >= end {
      start := cursor;
      end := FillFrom(repos, expanded, results, start, height);
      if cursor < |repos| {
        FillEndBounds(hs, start, height);
      }
    }
  }

  /** How many tracked repositories have a result with status st. */
  function CountStatus(repos: seq<RepoConfig>, results: map<string, RepoStatus>, st: Status): (n: nat)
    ensures n <= |repos|
  {
    if repos == [] then 0
    else
      var last := repos[|repos| - 1];
      var hit := Key(last) in results && results[Key(last)].status == st;
      CountStatus(repos[..|repos| - 1], results, st) + (if hit then 1 else 0)
  }

  /** The counts View feeds to the overview panel. */
  method OverviewCounts(repos: seq<RepoConfig>, results: map<string, RepoStatus>, loading: map<string, bool>)
    returns (total: int, pending: int, clean: int, noRelease: int, loadingCount: int)
    ensures total == |repos| && loadingCount == |loading|
    ensures pending == CountStatus(repos, results, StatusBehind)
    ensures clean == CountStatus(repos, results, StatusClean)
    ensures noRelease == CountStatus(repos, results, StatusNoRelease)
  {
    total := |repos|;
    pending, clean, noRelease := 0, 0, 0;
    loadingCount := |loading|;
    for i := 0 to |repos|
      invariant pending == CountStatus(repos[..i], results, StatusBehind)
      invariant clean == CountStatus(repos[..i], results, StatusClean)
      invariant noRelease == CountStatus(repos[..i], results, StatusNoRelease)
    {
      assert repos[..i + 1][..i] == repos[..i];
      var key := RepoKey(repos[i].owner, repos[i].repo);
      if key in results {
        match results[key].status {
          case StatusBehind => pending := pending + 1;
          case StatusClean => clean := clean + 1;
          case StatusNoRelease => noRelease := noRelease + 1;
          case _ =>
        }
      }
    }
    assert repos[..|repos|] == repos;
  }

  /** The three counts never add up to more than the number of tracked
      repositories: each row is counted at most once. */
  lemma {:induction false} CountsWithinTotal(repos: seq<RepoConfig>, results: map<string, RepoStatus>)
    ensures CountStatus(repos, results, StatusBehind) + CountStatus(repos, results, StatusClean)
            + CountStatus(repos, results, StatusNoRelease) <= |repos|
  {
    if repos != [] {
      CountsWithinTotal(repos[..|repos| - 1], results);
    }
  }
}

/**
 * What each handler does to the window's terminals, as functions of the
 * terminals before it runs, and the properties the extension promises of
 * those effects.
 */
module Effects {
  import opened Wrappers
  import opened Config
  import opened Host
  import opened Folders
  import opened Plans

  /** The macro that interrupts every terminal. */
  const Killall: string := "killall"
  /** The macro that disposes every terminal. */
  const Closeall: string := "closeall"

  /** The text that moves a new terminal to its `path`. */
  function CdLine(path: string): string
  {
    "cd " + path + "; clear;"
  }

  /** What `openTerminal` does to the terminal it creates. */
  function Setup(spec: TerminalSpec): seq<Action>
  {
    (if Truthy(spec.path) then [Text(CdLine(spec.path.value))] else [])
    + [Show]
    + (if Truthy(spec.command) then [Text(spec.command.value)] else [])
  }

  /** The terminal `openTerminal(spec, parent)` leaves behind. */
  function Opened(spec: TerminalSpec, parent: Option<nat>): Terminal
  {
    Terminal(spec.name, parent, Setup(spec), false)
  }

  lemma {:induction false} TextsAppend(a: seq<Action>, b: seq<Action>)
    ensures Texts(a + b) == Texts(a) + Texts(b)
  {
    if b == [] {
      assert a + b == a;
    } else {
      var c := b[..|b| - 1];
      assert (a + b)[..|a + b| - 1] == a + c;
      assert (a + b)[|a + b| - 1] == b[|b| - 1];
      TextsAppend(a, c);
    }
  }

  /**
   * A new terminal is sent `cd <path>; clear;` only when `path` is set, then
   * shown, then sent `command` only when it is set; with neither it gets no text.
   */
  lemma SetupOrder(spec: TerminalSpec)
    ensures Texts(Setup(spec)) ==
      (if Truthy(spec.path) then [CdLine(spec.path.value)] else []) +
      (if Truthy(spec.command) then [spec.command.value] else [])
    ensures Texts(Setup(spec)) == [] <==> !Truthy(spec.path) && !Truthy(spec.command)
    ensures |Setup(spec)| == |Texts(Setup(spec))| + 1
    ensures forall k :: 0 <= k < |Setup(spec)| ==> (Setup(spec)[k] == Show <==> k == if Truthy(spec.path) then 1 else 0)
  {
    var cd: seq<Action> := if Truthy(spec.path) then [Text(CdLine(spec.path.value))] else [];
    var cmd: seq<Action> := if Truthy(spec.command) then [Text(spec.command.value)] else [];
    TextsAppend(cd + [Show], cmd);
    TextsAppend(cd, [Show]);
    assert Texts([Show]) == [];
    if Truthy(spec.path) {
      assert Texts(cd) == [CdLine(spec.path.value)];
    }
    if Truthy(spec.command) {
      assert Texts(cmd) == [spec.command.value];
    }
  }

  /** A plan position shifted to an index of the window's list. */
  function Shift(p: Option<nat>, base: nat): Option<nat>
  {
    match p
    case None => None
    case Some(k) => Some(base + k)
  }

  /** The terminals after the plan's creations are appended to `ts`. */
  function Create(ts: seq<Terminal>, plan: seq<Creation>): seq<Terminal>
  {
    ts + seq(|plan|, i requires 0 <= i < |plan| => Opened(plan[i].spec, Shift(plan[i].parent, |ts|)))
  }

  lemma CreateAt(ts: seq<Terminal>, plan: seq<Creation>, i: nat)
    requires i < |plan|
    ensures |Create(ts, plan)| == |ts| + |plan|
    ensures Create(ts, plan)[|ts| + i] == Opened(plan[i].spec, Shift(plan[i].parent, |ts|))
  {
  }

  /** A new terminal is shown and not disposed. */
  lemma OpenedShown(spec: TerminalSpec, parent: Option<nat>)
    ensures !Opened(spec, parent).disposed && Show in Opened(spec, parent).history
  {
    var cd: seq<Action> := if Truthy(spec.path) then [Text(CdLine(spec.path.value))] else [];
    assert Setup(spec)[|cd|] == Show;
  }

  lemma CreateAppends(ts: seq<Terminal>, plan: seq<Creation>)
    ensures |Create(ts, plan)| == |ts| + |plan|
    ensures Create(ts, plan)[..|ts|] == ts
    ensures forall k :: |ts| <= k < |ts| + |plan| ==> Create(ts, plan)[k].name == plan[k - |ts|].spec.name
    ensures forall k :: |ts| <= k < |ts| + |plan| ==> !Create(ts, plan)[k].disposed && Show in Create(ts, plan)[k].history
  {
    var r := Create(ts, plan);
    assert r[..|ts|] == ts;
    forall k | |ts| <= k < |ts| + |plan|
      ensures r[k].name == plan[k - |ts|].spec.name
      ensures !r[k].disposed && Show in r[k].history
    {
      CreateAt(ts, plan, k - |ts|);
      OpenedShown(plan[k - |ts|].spec, Shift(plan[k - |ts|].parent, |ts|));
    }
  }

  lemma CreateAppend(ts: seq<Terminal>, plan: seq<Creation>, c: Creation)
    ensures Create(ts, plan + [c]) == Create(ts, plan) + [Opened(c.spec, Shift(c.parent, |ts|))]
  {
  }

  /** One `openTerminal` call appends the terminal it creates, if any. */
  lemma CreateAttempt(ts: seq<Terminal>, plan: seq<Creation>, x: Option<TerminalSpec>, parent: Option<nat>)
    ensures Create(ts, plan + Attempt(x, parent)) ==
      Create(ts, plan) + (if x.Some? then [Opened(x.value, Shift(parent, |ts|))] else [])
  {
    if x.Some? {
      CreateAppend(ts, plan, Creation(x.value, parent));
    } else {
      assert plan + Attempt(x, parent) == plan;
    }
  }

  /** Opening element `k` of the later elements of a tab group appends its terminal, if any. */
  lemma SplitStep(ts: seq<Terminal>, before: seq<Creation>, rest: seq<Option<TerminalSpec>>, k: nat, parent: Option<nat>)
    requires k < |rest|
    ensures Create(ts, before + Splits(rest[..k + 1], parent)) ==
      Create(ts, before + Splits(rest[..k], parent)) + (if rest[k].Some? then [Opened(rest[k].value, Shift(parent, |ts|))] else [])
  {
    assert rest[..k + 1][..k] == rest[..k];
    assert before + Splits(rest[..k + 1], parent) == (before + Splits(rest[..k], parent)) + Attempt(rest[k], parent);
    CreateAttempt(ts, before + Splits(rest[..k], parent), rest[k], parent);
  }

  /** The terminals after `open(folder)` has run. */
  function AfterOpen(ts: seq<Terminal>, ws: Workspace, folder: Folder): seq<Terminal>
  {
    Create(ts, OpenPlan(GetConfig(ws, folder)))
  }

  /**
   * Without a config, after a parse failure, or when `open` is absent, falsy
   * or not an array, `open` creates no terminal and sends no text.
   */
  lemma OpenWithoutEntries(ts: seq<Terminal>, ws: Workspace, folder: Folder)
    requires ws.folders.None? || !FileOf(ws, folder).Parsed? || !FileOf(ws, folder).config.open.OpenList?
    ensures AfterOpen(ts, ws, folder) == ts
  {
  }

  /**
   * `open` leaves the existing terminals alone and appends one terminal per
   * flat entry and one per element of each array entry, named in declaration
   * order, each shown and none disposed.
   */
  lemma OpenCreatesDeclared(ts: seq<Terminal>, ws: Workspace, folder: Folder)
    ensures var r := AfterOpen(ts, ws, folder); var es := OpenEntries(GetConfig(ws, folder));
      && |Flatten(es)| == Singles(es) + Grouped(es)
      && |r| == |ts| + |Flatten(es)|
      && r[..|ts|] == ts
      && (forall k :: |ts| <= k < |r| ==> r[k].name == Flatten(es)[k - |ts|].name)
      && (forall k :: |ts| <= k < |r| ==> !r[k].disposed && Show in r[k].history)
  {
    var es := OpenEntries(GetConfig(ws, folder));
    PlanFollowsDeclaration(es);
    FlattenCount(es);
    CreateAppends(ts, PlanEntries(es));
  }

  /**
   * Each terminal `open` attaches as a split has as parent a terminal created
   * earlier by the same `open`, which is itself standalone, and every terminal
   * between the two belongs to the same group.
   */
  lemma OpenParents(ts: seq<Terminal>, ws: Workspace, folder: Folder)
    ensures var r := AfterOpen(ts, ws, folder);
      forall k :: |ts| <= k < |r| && r[k].parent.Some? ==>
        && |ts| <= r[k].parent.value < k
        && r[r[k].parent.value].parent.None?
        && forall j :: r[k].parent.value < j <= k ==> r[j].parent == r[k].parent
  {
    var plan := OpenPlan(GetConfig(ws, folder));
    PlanParents(OpenEntries(GetConfig(ws, folder)));
    var r := Create(ts, plan);
    forall k | |ts| <= k < |r| && r[k].parent.Some?
      ensures |ts| <= r[k].parent.value < k
      ensures r[r[k].parent.value].parent.None?
      ensures forall j :: r[k].parent.value < j <= k ==> r[j].parent == r[k].parent
    {
      var i := k - |ts|;
      CreateAt(ts, plan, i);
      var p := plan[i].parent.value;
      CreateAt(ts, plan, p);
      forall j | r[k].parent.value < j <= k ensures r[j].parent == r[k].parent {
        CreateAt(ts, plan, j - |ts|);
      }
    }
  }

  /**
   * Entry `e` of `open` creates its terminals in one run, right after those
   * of the entries before it, named as it lists them: its `j`-th is at
   * position `at + j`. When it is an array whose first element is not null,
   * every later terminal of the run is a split of the run's first; otherwise
   * none of them has a parent.
   */
  lemma OpenEntryPlaced(ts: seq<Terminal>, ws: Workspace, folder: Folder, e: nat, j: nat)
    requires e < |OpenEntries(GetConfig(ws, folder))|
    requires j < |EntrySpecs(OpenEntries(GetConfig(ws, folder))[e])|
    ensures var es := OpenEntries(GetConfig(ws, folder)); var r := AfterOpen(ts, ws, folder);
      var at := |ts| + |Flatten(es[..e])|;
      && at + |EntrySpecs(es[e])| <= |r|
      && r[at + j].name == EntrySpecs(es[e])[j].name
      && r[at + j].parent == if 0 < j && HasHead(es[e]) then Some(at) else None
  {
    var es := OpenEntries(GetConfig(ws, folder));
    EntryInPlan(es, e);
    CreatedRunPoint(ts, PlanEntries(es), |Flatten(es[..e])|, EntrySpecs(es[e]), HasHead(es[e]), j);
  }

  /** Creation `j` of a run of a plan becomes terminal `|ts| + at + j`. */
  lemma CreatedRunPoint(ts: seq<Terminal>, plan: seq<Creation>, at: nat, specs: seq<TerminalSpec>, head: bool, j: nat)
    requires PlanRunAt(plan, at, specs, head)
    requires j < |specs|
    ensures |ts| + at + |specs| <= |Create(ts, plan)|
    ensures Create(ts, plan)[|ts| + at + j].name == specs[j].name
    ensures Create(ts, plan)[|ts| + at + j].parent == if 0 < j && head then Some(|ts| + at) else None
  {
    RunPoint(plan, at, specs, head, j);
    CreateAt(ts, plan, at + j);
  }

  /** `killall`: every open terminal is sent the interrupt character. */
  function KillAll(ts: seq<Terminal>): (r: seq<Terminal>)
    ensures |r| == |ts|
    ensures forall i :: 0 <= i < |ts| ==> r[i].name == ts[i].name && r[i].parent == ts[i].parent && r[i].disposed == ts[i].disposed
    ensures forall i :: 0 <= i < |ts| && !ts[i].disposed ==> r[i].history == ts[i].history + [Text(Sigint)]
    ensures forall i :: 0 <= i < |ts| && ts[i].disposed ==> r[i] == ts[i]
  {
    seq(|ts|, i requires 0 <= i < |ts| => if ts[i].disposed then ts[i] else Record(ts[i], Text(Sigint)))
  }

  /** `closeall`: every open terminal is disposed. */
  function CloseAll(ts: seq<Terminal>): (r: seq<Terminal>)
    ensures |r| == |ts| && NoneOpen(r)
    ensures forall i :: 0 <= i < |ts| ==> r[i].name == ts[i].name && r[i].parent == ts[i].parent && r[i].history == ts[i].history
  {
    seq(|ts|, i requires 0 <= i < |ts| => if ts[i].disposed then ts[i] else ts[i].(disposed := true))
  }

  /** `executeMacro(macro)`: an unknown macro is only logged. */
  function AfterMacro(ts: seq<Terminal>, macro: string): seq<Terminal>
  {
    if macro == Killall then KillAll(ts)
    else if macro == Closeall then CloseAll(ts)
    else ts
  }

  /** The macros executed in order. */
  function AfterMacros(ts: seq<Terminal>, ms: seq<string>): (r: seq<Terminal>)
    ensures |r| == |ts|
  {
    if ms == [] then ts
    else AfterMacro(AfterMacros(ts, ms[..|ms| - 1]), ms[|ms| - 1])
  }

  /**
   * Macros never create, rename or re-parent a terminal, never touch a
   * disposed one, and only ever add interrupts to a terminal's history.
   */
  lemma {:induction false} MacrosKeepTerminals(ts: seq<Terminal>, ms: seq<string>)
    ensures var r := AfterMacros(ts, ms);
      && |r| == |ts|
      && (forall i :: 0 <= i < |ts| ==> r[i].name == ts[i].name && r[i].parent == ts[i].parent)
      && (forall i :: 0 <= i < |ts| && ts[i].disposed ==> r[i] == ts[i])
      && (forall i :: 0 <= i < |ts| ==> ts[i].history <= r[i].history)
      && (forall i, k :: 0 <= i < |ts| && |ts[i].history| <= k < |r[i].history| ==> r[i].history[k] == Text(Sigint))
  {
    if ms != [] {
      MacrosKeepTerminals(ts, ms[..|ms| - 1]);
      var before := AfterMacros(ts, ms[..|ms| - 1]);
      var r := AfterMacros(ts, ms);
      forall i, k | 0 <= i < |ts| && |ts[i].history| <= k < |r[i].history|
        ensures r[i].history[k] == Text(Sigint)
      {
        if k < |before[i].history| {
          assert r[i].history[k] == before[i].history[k];
        }
      }
    }
  }

  /** A policy that includes `closeall` leaves no terminal open. */
  lemma {:induction false} CloseallDisposesAll(ts: seq<Terminal>, ms: seq<string>)
    requires Closeall in ms
    ensures NoneOpen(AfterMacros(ts, ms))
  {
    var last := ms[|ms| - 1];
    if last != Closeall {
      assert ms == ms[..|ms| - 1] + [last];
      CloseallDisposesAll(ts, ms[..|ms| - 1]);
    }
  }

  /** `n` copies of `a`. */
  function Repeat(a: Action, n: nat): (r: seq<Action>)
    ensures |r| == n
  {
    seq(n, _ => a)
  }

  /**
   * A policy without `closeall` disposes nothing, and each open terminal gets
   * one interrupt per `killall` in it.
   */
  lemma {:induction false} KillallsOnly(ts: seq<Terminal>, ms: seq<string>)
    requires Closeall !in ms
    ensures var r := AfterMacros(ts, ms);
      forall i :: 0 <= i < |ts| ==>
        && r[i].disposed == ts[i].disposed
        && (!ts[i].disposed ==> r[i].history == ts[i].history + Repeat(Text(Sigint), multiset(ms)[Killall]))
  {
    if ms != [] {
      var prefix, last := ms[..|ms| - 1], ms[|ms| - 1];
      assert ms == prefix + [last];
      KillallsOnly(ts, prefix);
      MacrosKeepTerminals(ts, prefix);
      var n := multiset(prefix)[Killall];
      if last == Killall {
        assert Repeat(Text(Sigint), n + 1) == Repeat(Text(Sigint), n) + [Text(Sigint)];
      }
    }
  }

  /** A policy made only of unknown macros leaves every terminal as it was. */
  lemma {:induction false} UnknownMacrosChangeNothing(ts: seq<Terminal>, ms: seq<string>)
    requires Killall !in ms && Closeall !in ms
    ensures AfterMacros(ts, ms) == ts
  {
    if ms != [] {
      assert ms == ms[..|ms| - 1] + [ms[|ms| - 1]];
      UnknownMacrosChangeNothing(ts, ms[..|ms| - 1]);
    }
  }

  /** The terminals after `close(folder)` has run. */
  function AfterClose(ts: seq<Terminal>, ws: Workspace, folder: Folder): seq<Terminal>
  {
    AfterMacros(ts, ClosePlan(GetConfig(ws, folder)))
  }

  /**
   * `close` runs a string policy as one macro and an array policy macro by
   * macro in order; without a config, after a parse failure, or when `close`
   * is absent, empty or of another type, it changes nothing.
   */
  lemma ClosePolicy(ts: seq<Terminal>, ws: Workspace, folder: Folder)
    ensures var f := FileOf(ws, folder);
      && (ws.folders.None? || !f.Parsed? || f.config.close.NoClose? || f.config.close.CloseOther? ==> AfterClose(ts, ws, folder) == ts)
      && (ws.folders.Some? && f.Parsed? && f.config.close.CloseString? ==>
            AfterClose(ts, ws, folder) == AfterMacro(ts, f.config.close.macro))
      && (ws.folders.Some? && f.Parsed? && f.config.close.CloseList? ==>
            AfterClose(ts, ws, folder) == AfterMacros(ts, f.config.close.macros))
  {
    var f := FileOf(ws, folder);
    if ws.folders.Some? && f.Parsed? && f.config.close.CloseString? {
      var m := f.config.close.macro;
      if m != "" {
        assert [m][..0] == [];
        assert AfterMacros(ts, [m]) == AfterMacro(AfterMacros(ts, []), m);
      }
    }
  }

  /** The activation sweep: every open terminal is interrupted, then disposed. */
  function Sweep(ts: seq<Terminal>): (r: seq<Terminal>)
    ensures |r| == |ts| && NoneOpen(r)
    ensures forall i :: 0 <= i < |ts| ==> r[i].name == ts[i].name && r[i].parent == ts[i].parent
    ensures forall i :: 0 <= i < |ts| && !ts[i].disposed ==> r[i].history == ts[i].history + [Text(Sigint)]
    ensures forall i :: 0 <= i < |ts| && ts[i].disposed ==> r[i] == ts[i]
  {
    seq(|ts|, i requires 0 <= i < |ts| =>
      if ts[i].disposed then ts[i] else Record(ts[i], Text(Sigint)).(disposed := true))
  }

  /** The sweep has the effect of the close policy `["killall", "closeall"]`. */
  lemma SweepIsKillallThenCloseall(ts: seq<Terminal>)
    ensures Sweep(ts) == AfterMacros(ts, [Killall, Closeall])
  {
    assert [Killall, Closeall][..1] == [Killall];
    assert [Killall][..0] == [];
    var killed := AfterMacros(ts, [Killall]);
    assert killed == AfterMacro(AfterMacros(ts, []), Killall);
    var r := AfterMacros(ts, [Killall, Closeall]);
    assert r == CloseAll(killed);
    forall i | 0 <= i < |ts| ensures Sweep(ts)[i] == r[i] {
    }
  }

  /** The effect of one handler call. */
  function Run(ts: seq<Terminal>, ws: Workspace, c: Call): seq<Terminal>
  {
    match c
    case OpenFolder(f) => AfterOpen(ts, ws, f)
    case CloseFolder(f) => AfterClose(ts, ws, f)
  }

  /** The handler calls run one after another. */
  function RunCalls(ts: seq<Terminal>, ws: Workspace, cs: seq<Call>): seq<Terminal>
  {
    if cs == [] then ts
    else Run(RunCalls(ts, ws, cs[..|cs| - 1]), ws, cs[|cs| - 1])
  }

  /**
   * Handler calls never remove, rename or re-parent a terminal that existed
   * before them, and never touch one that was already disposed.
   */
  lemma {:induction false} RunCallsKeepsExisting(ts: seq<Terminal>, ws: Workspace, cs: seq<Call>)
    ensures var r := RunCalls(ts, ws, cs);
      && |r| >= |ts|
      && (forall i :: 0 <= i < |ts| ==> r[i].name == ts[i].name && r[i].parent == ts[i].parent)
      && (forall i :: 0 <= i < |ts| && ts[i].disposed ==> r[i] == ts[i])
  {
    if cs != [] {
      var before := RunCalls(ts, ws, cs[..|cs| - 1]);
      RunCallsKeepsExisting(ts, ws, cs[..|cs| - 1]);
      match cs[|cs| - 1]
      case OpenFolder(f) =>
        OpenCreatesDeclared(before, ws, f);
        var r := AfterOpen(before, ws, f);
        forall i | 0 <= i < |before| ensures r[i] == before[i] {
          assert r[..|before|][i] == r[i];
        }
      case CloseFolder(f) =>
        MacrosKeepTerminals(before, ClosePlan(GetConfig(ws, f)));
    }
  }

  lemma RunCallsAppend(ts: seq<Terminal>, ws: Workspace, cs: seq<Call>, c: Call)
    ensures RunCalls(ts, ws, cs + [c]) == Run(RunCalls(ts, ws, cs), ws, c)
  {
    assert (cs + [c])[..|cs|] == cs;
  }

  lemma {:induction false} RunCallsConcat(ts: seq<Terminal>, ws: Workspace, a: seq<Call>, b: seq<Call>)
    ensures RunCalls(ts, ws, a + b) == RunCalls(RunCalls(ts, ws, a), ws, b)
  {
    if b == [] {
      assert a + b == a;
    } else {
      var c := b[..|b| - 1];
      assert a + b == (a + c) + [b[|b| - 1]];
      RunCallsAppend(ts, ws, a + c, b[|b| - 1]);
      RunCallsAppend(RunCalls(ts, ws, a), ws, c, b[|b| - 1]);
      assert b == c + [b[|b| - 1]];
      RunCallsConcat(ts, ws, a, c);
    }
  }

  lemma AfterMacrosAppend(ts: seq<Terminal>, ms: seq<string>, m: string)
    ensures AfterMacros(ts, ms + [m]) == AfterMacro(AfterMacros(ts, ms), m)
  {
    assert (ms + [m])[..|ms|] == ms;
  }

  /** One step of the change handler's first loop. */
  lemma OpenStep(ts: seq<Terminal>, ws: Workspace, seen: seq<Folder>, prev: seq<Folder>, f: Folder)
    ensures RunCalls(ts, ws, OpenCalls(Missing(seen + [f], prev))) ==
      if Find(prev, f.uri).None? then AfterOpen(RunCalls(ts, ws, OpenCalls(Missing(seen, prev))), ws, f)
      else RunCalls(ts, ws, OpenCalls(Missing(seen, prev)))
  {
    MissingAppend(seen, prev, f);
    if Find(prev, f.uri).None? {
      CallsAppend(Missing(seen, prev), f);
      RunCallsAppend(ts, ws, OpenCalls(Missing(seen, prev)), OpenFolder(f));
    } else {
      assert Missing(seen + [f], prev) == Missing(seen, prev);
    }
  }

  /** One step of the change handler's second loop. */
  lemma CloseStep(ts: seq<Terminal>, ws: Workspace, seen: seq<Folder>, curr: seq<Folder>, f: Folder)
    ensures RunCalls(ts, ws, CloseCalls(Missing(seen + [f], curr))) ==
      if Find(curr, f.uri).None? then AfterClose(RunCalls(ts, ws, CloseCalls(Missing(seen, curr))), ws, f)
      else RunCalls(ts, ws, CloseCalls(Missing(seen, curr)))
  {
    MissingAppend(seen, curr, f);
    var m := Missing(seen, curr);
    if Find(curr, f.uri).None? {
      CallsAppend(m, f);
      assert CloseCalls(Missing(seen + [f], curr)) == CloseCalls(m) + [CloseFolder(f)];
      RunCallsAppend(ts, ws, CloseCalls(m), CloseFolder(f));
      assert Run(RunCalls(ts, ws, CloseCalls(m)), ws, CloseFolder(f)) == AfterClose(RunCalls(ts, ws, CloseCalls(m)), ws, f);
    } else {
      assert Missing(seen + [f], curr) == m;
    }
  }

  /** Replaying a change event in which no folder changed does nothing. */
  lemma ReplayChangesNothing(ts: seq<Terminal>, ws: Workspace, fs: seq<Folder>)
    ensures RunCalls(ts, ws, FolderDiff(fs, fs)) == ts
  {
    forall k | 0 <= k < |fs| ensures Find(fs, fs[k].uri).Some? {
    }
    FolderDiffOfSameUris(fs, fs);
  }
}

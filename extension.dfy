/**
 * The extension object: the workspace folders it remembers, and the handlers
 * that open and close terminals in the editor's window as folders come and go.
 * Each handler is proved to have exactly the effect the functions of module
 * Effects describe.
 */
module Extension {
  import opened Wrappers
  import opened Config
  import opened Host
  import opened Folders
  import opened Plans
  import opened Effects

  class AutoTerminal {
    /** The workspace folders as of activation or the last change event. */
    var workspaceFolders: seq<Folder>
    /** The window whose terminals the handlers drive. */
    const window: Window

    constructor (window: Window)
      ensures this.window == window && workspaceFolders == []
    {
      this.window := window;
      workspaceFolders := [];
    }

    /**
     * `activate`: interrupt and dispose every terminal already open, remember
     * the workspace's folders, then run `open` for each of them. The change
     * listener it registers is OnDidChangeWorkspaceFolders.
     */
    method Activate(ws: Workspace)
      modifies this, window
      ensures workspaceFolders == Current(ws)
      ensures window.terminals == RunCalls(Sweep(old(window.terminals)), ws, OpenCalls(Current(ws)))
    {
      var i := 0;
      while i < |window.terminals|
        invariant 0 <= i <= |window.terminals| == |old(window.terminals)|
        invariant forall k :: 0 <= k < i ==> window.terminals[k] == Sweep(old(window.terminals))[k]
        invariant forall k :: i <= k < |window.terminals| ==> window.terminals[k] == old(window.terminals)[k]
      {
        if !window.terminals[i].disposed {
          SendSigint(i);
          window.Dispose(i);
        }
        i := i + 1;
      }
      ghost var swept := window.terminals;
      assert swept == Sweep(old(window.terminals));
      workspaceFolders := Current(ws);
      var j := 0;
      while j < |workspaceFolders|
        invariant 0 <= j <= |workspaceFolders|
        invariant workspaceFolders == Current(ws)
        invariant window.terminals == RunCalls(swept, ws, OpenCalls(workspaceFolders[..j]))
      {
        var folder := workspaceFolders[j];
        Open(folder, ws);
        assert workspaceFolders[..j + 1] == workspaceFolders[..j] + [folder];
        CallsAppend(workspaceFolders[..j], folder);
        RunCallsAppend(swept, ws, OpenCalls(workspaceFolders[..j]), OpenFolder(folder));
        j := j + 1;
      }
      assert workspaceFolders[..j] == workspaceFolders;
    }

    /**
     * The workspace-folder change listener: `open` for every current folder
     * whose URI was not remembered, then `close` for every remembered folder
     * whose URI is gone, then remember the current folders.
     */
    method OnDidChangeWorkspaceFolders(ws: Workspace)
      modifies this, window
      ensures workspaceFolders == Current(ws)
      ensures window.terminals == RunCalls(old(window.terminals), ws, FolderDiff(old(workspaceFolders), Current(ws)))
    {
      var current := Current(ws);
      OpenAdded(current, ws);
      CloseRemoved(current, ws);
      RunCallsConcat(old(window.terminals), ws, OpenCalls(Missing(current, workspaceFolders)), CloseCalls(Missing(workspaceFolders, current)));
      workspaceFolders := current;
    }

    /** The listener's first loop: `open` each current folder whose URI is not remembered. */
    method OpenAdded(current: seq<Folder>, ws: Workspace)
      modifies window
      ensures window.terminals == RunCalls(old(window.terminals), ws, OpenCalls(Missing(current, workspaceFolders)))
    {
      var i := 0;
      while i < |current|
        invariant 0 <= i <= |current|
        invariant window.terminals == RunCalls(old(window.terminals), ws, OpenCalls(Missing(current[..i], workspaceFolders)))
      {
        var folder := current[i];
        assert current[..i + 1] == current[..i] + [folder];
        OpenStep(old(window.terminals), ws, current[..i], workspaceFolders, folder);
        if Find(workspaceFolders, folder.uri).None? {
          Open(folder, ws);
        }
        i := i + 1;
      }
      assert current[..i] == current;
    }

    /** The listener's second loop: `close` each remembered folder whose URI is not current. */
    method CloseRemoved(current: seq<Folder>, ws: Workspace)
      modifies window
      ensures window.terminals == RunCalls(old(window.terminals), ws, CloseCalls(Missing(workspaceFolders, current)))
    {
      var j := 0;
      assert workspaceFolders[..0] == [];
      while j < |workspaceFolders|
        invariant 0 <= j <= |workspaceFolders|
        invariant window.terminals == RunCalls(old(window.terminals), ws, CloseCalls(Missing(workspaceFolders[..j], current)))
      {
        var folder := workspaceFolders[j];
        assert workspaceFolders[..j + 1] == workspaceFolders[..j] + [folder];
        CloseStep(old(window.terminals), ws, workspaceFolders[..j], current, folder);
        if Find(current, folder.uri).None? {
          Close(folder, ws);
        }
        j := j + 1;
      }
      assert workspaceFolders[..j] == workspaceFolders;
    }

    /** `open(folder)`: create the terminals the folder's config lists. */
    method Open(folder: Folder, ws: Workspace)
      modifies window
      ensures window.terminals == AfterOpen(old(window.terminals), ws, folder)
    {
      var config := GetConfig(ws, folder);
      if config.Null? {
        return;
      }
      // A parse failure resolves to undefined: reading `open` on it throws
      // before anything is created.
      if config.Undefined? {
        return;
      }
      // Absent or falsy: return. A truthy non-array: `forEach` throws.
      if !config.config.open.OpenList? {
        return;
      }
      var entries := config.config.open.entries;
      ghost var start := window.terminals;
      var i := 0;
      while i < |entries|
        invariant 0 <= i <= |entries|
        invariant window.terminals == Create(start, PlanEntries(entries[..i]))
      {
        ghost var done := PlanEntries(entries[..i]);
        assert entries[..i + 1][..i] == entries[..i];
        assert PlanEntries(entries[..i + 1]) == done + EntryPlan(entries[i], |done|);
        OpenEntry(entries[i], start, done);
        i := i + 1;
      }
      assert entries[..i] == entries;
    }

    /**
     * The `forEach` callback of `open` for one entry: a non-array entry opens
     * one standalone terminal; an array is a tab group.
     */
    method OpenEntry(entry: OpenEntry, ghost start: seq<Terminal>, ghost done: seq<Creation>)
      requires window.terminals == Create(start, done)
      modifies window
      ensures window.terminals == Create(start, done + EntryPlan(entry, |done|))
    {
      match entry {
        case Single(x) =>
          var created := OpenTerminal(x, None);
          CreateAttempt(start, done, x, None);
        case Group(g) =>
          OpenGroup(g, start, done);
      }
    }

    /**
     * The array branch of that callback: open `tabData[0]` standalone, then
     * every element of `tabData.slice(1)` as a split of the terminal that call
     * returned.
     */
    method OpenGroup(g: seq<Option<TerminalSpec>>, ghost start: seq<Terminal>, ghost done: seq<Creation>)
      requires window.terminals == Create(start, done)
      modifies window
      ensures window.terminals == Create(start, done + GroupPlan(g, |done|))
    {
      var main := OpenTerminal(if g == [] then None else g[0], None);
      ghost var head := if g == [] then None else g[0];
      ghost var parent := if head.Some? then Some(|done|) else None;
      CreateAttempt(start, done, head, None);
      var rest := if g == [] then [] else g[1..];
      OpenSplits(rest, main, start, done + Attempt(head, None), parent);
      GroupPlanParts(done, g, |done|);
    }

    /**
     * The `tabData.slice(1).forEach` loop: open each element, in order, as a
     * split of `main`, the index of the group's first terminal (or as a
     * standalone terminal when that call created nothing).
     */
    method OpenSplits(rest: seq<Option<TerminalSpec>>, main: Option<nat>, ghost start: seq<Terminal>, ghost before: seq<Creation>, ghost parent: Option<nat>)
      requires window.terminals == Create(start, before)
      requires main == Shift(parent, |start|)
      modifies window
      ensures window.terminals == Create(start, before + Splits(rest, parent))
    {
      assert before + Splits(rest[..0], parent) == before;
      var k := 0;
      while k < |rest|
        invariant 0 <= k <= |rest|
        invariant window.terminals == Create(start, before + Splits(rest[..k], parent))
      {
        ghost var now := window.terminals;
        var child := OpenTerminal(rest[k], main);
        assert window.terminals == now + if rest[k].Some? then [Opened(rest[k].value, Shift(parent, |start|))] else [];
        SplitStep(start, before, rest, k, parent);
        k := k + 1;
      }
      assert rest[..k] == rest;
    }

    /** `close(folder)`: run the folder's close policy. */
    method Close(folder: Folder, ws: Workspace)
      modifies window
      ensures window.terminals == AfterClose(old(window.terminals), ws, folder)
    {
      var config := GetConfig(ws, folder);
      if config.Null? {
        return;
      }
      // Reading `close` on undefined throws before any macro runs.
      if config.Undefined? {
        return;
      }
      match config.config.close {
        case NoClose =>
        case CloseString(macro) =>
          if macro != "" {
            ExecuteMacro(macro);
            AfterMacrosAppend(old(window.terminals), [], macro);
          }
        case CloseList(macros) =>
          var i := 0;
          while i < |macros|
            invariant 0 <= i <= |macros|
            invariant window.terminals == AfterMacros(old(window.terminals), macros[..i])
          {
            ExecuteMacro(macros[i]);
            assert macros[..i + 1] == macros[..i] + [macros[i]];
            AfterMacrosAppend(old(window.terminals), macros[..i], macros[i]);
            i := i + 1;
          }
          assert macros[..i] == macros;
        case CloseOther =>
      }
    }

    /**
     * `executeMacro(macro)`: `killall` interrupts and `closeall` disposes
     * every open terminal; any other name is only logged.
     */
    method ExecuteMacro(macro: string)
      modifies window
      ensures window.terminals == AfterMacro(old(window.terminals), macro)
    {
      if macro == Killall {
        var i := 0;
        while i < |window.terminals|
          invariant 0 <= i <= |window.terminals| == |old(window.terminals)|
          invariant forall k :: 0 <= k < i ==> window.terminals[k] == KillAll(old(window.terminals))[k]
          invariant forall k :: i <= k < |window.terminals| ==> window.terminals[k] == old(window.terminals)[k]
        {
          if !window.terminals[i].disposed {
            SendSigint(i);
          }
          i := i + 1;
        }
      } else if macro == Closeall {
        var i := 0;
        while i < |window.terminals|
          invariant 0 <= i <= |window.terminals| == |old(window.terminals)|
          invariant forall k :: 0 <= k < i ==> window.terminals[k] == CloseAll(old(window.terminals))[k]
          invariant forall k :: i <= k < |window.terminals| ==> window.terminals[k] == old(window.terminals)[k]
        {
          if !window.terminals[i].disposed {
            window.Dispose(i);
          }
          i := i + 1;
        }
      }
    }

    /**
     * `openTerminal(data, parent)`: create the terminal, send `cd <path>;
     * clear;` if `path` is set, show it, send `command` if it is set, and
     * return it. When `data` is null or undefined, reading its `name` throws
     * inside the `try`: the error is logged, nothing is created and the
     * result is undefined.
     */
    method OpenTerminal(data: Option<TerminalSpec>, parent: Option<nat>) returns (t: Option<nat>)
      modifies window
      ensures t == if data.Some? then Some(|old(window.terminals)|) else None
      ensures window.terminals == old(window.terminals) + if data.Some? then [Opened(data.value, parent)] else []
    {
      if data.None? {
        assert old(window.terminals) + [] == old(window.terminals);
        return None;
      }
      var spec := data.value;
      var id := window.CreateTerminal(spec.name, parent);
      ghost var cd: seq<Action> := if Truthy(spec.path) then [Text(CdLine(spec.path.value))] else [];
      ghost var cmd: seq<Action> := if Truthy(spec.command) then [Text(spec.command.value)] else [];
      if Truthy(spec.path) {
        window.SendText(id, CdLine(spec.path.value));
        assert [] + cd == cd;
      }
      assert window.terminals == old(window.terminals) + [Terminal(spec.name, parent, cd, false)];
      window.Show(id);
      assert window.terminals == old(window.terminals) + [Terminal(spec.name, parent, cd + [Show], false)];
      if Truthy(spec.command) {
        window.SendText(id, spec.command.value);
      } else {
        assert cd + [Show] + cmd == cd + [Show];
      }
      assert window.terminals == old(window.terminals) + [Terminal(spec.name, parent, cd + [Show] + cmd, false)];
      t := Some(id);
    }

    /** `sendSIGINT(terminal)`. */
    method SendSigint(id: nat)
      requires id < |window.terminals|
      modifies window
      ensures window.terminals == old(window.terminals)[id := Record(old(window.terminals)[id], Text(Sigint))]
    {
      window.SendText(id, Sigint);
    }

    /** `deactivate`: run `close` for every remembered folder. */
    method Deactivate(ws: Workspace)
      modifies window
      ensures window.terminals == RunCalls(old(window.terminals), ws, CloseCalls(workspaceFolders))
    {
      var i := 0;
      while i < |workspaceFolders|
        invariant 0 <= i <= |workspaceFolders|
        invariant window.terminals == RunCalls(old(window.terminals), ws, CloseCalls(workspaceFolders[..i]))
      {
        var folder := workspaceFolders[i];
        Close(folder, ws);
        assert workspaceFolders[..i + 1] == workspaceFolders[..i] + [folder];
        CallsAppend(workspaceFolders[..i], folder);
        RunCallsAppend(old(window.terminals), ws, CloseCalls(workspaceFolders[..i]), CloseFolder(folder));
        i := i + 1;
      }
      assert workspaceFolders[..i] == workspaceFolders;
    }
  }
}

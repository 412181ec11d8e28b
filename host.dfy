/**
 * The part of the editor's window API that the extension drives: the list of
 * integrated terminals, each of which can be created (optionally as a split of
 * a parent terminal), sent text, shown and disposed.
 */
module Host {
  import opened Wrappers

  /** The control character U+0003, which a shell reads as SIGINT. */
  const Sigint: string := "\U{3}"

  /** One thing done to a terminal, in the order it was done. */
  datatype Action = Text(text: string) | Show

  /**
   * A terminal: its name (None when none was given and the editor picked its
   * default), the index of its split parent in the window's list
   * (None for a standalone terminal), everything done to it in order, and
   * whether it has been disposed. A disposed terminal is no longer listed by
   * the window, so the extension never touches it again.
   */
  datatype Terminal = Terminal(name: Option<string>, parent: Option<nat>, history: seq<Action>, disposed: bool)

  /** `t` after one more action. */
  function Record(t: Terminal, a: Action): Terminal
  {
    t.(history := t.history + [a])
  }

  /** The texts sent to a terminal, in the order they were sent. */
  function Texts(h: seq<Action>): seq<string>
  {
    if h == [] then []
    else Texts(h[..|h| - 1]) + (match h[|h| - 1] case Text(s) => [s] case Show => [])
  }

  /** No terminal is still listed by the window. */
  predicate NoneOpen(ts: seq<Terminal>)
  {
    forall i :: 0 <= i < |ts| ==> ts[i].disposed
  }

  /** The window: the terminals the editor has, disposed ones included. */
  class Window {
    var terminals: seq<Terminal>

    constructor (existing: seq<Terminal>)
      ensures terminals == existing
    {
      terminals := existing;
    }

    /** `window.createTerminal({ name, location: { parentTerminal } })`. */
    method CreateTerminal(name: Option<string>, parent: Option<nat>) returns (id: nat)
      modifies this
      ensures id == |old(terminals)|
      ensures terminals == old(terminals) + [Terminal(name, parent, [], false)]
    {
      id := |terminals|;
      terminals := terminals + [Terminal(name, parent, [], false)];
    }

    /** `terminal.sendText(text)`. */
    method SendText(id: nat, text: string)
      requires id < |terminals|
      modifies this
      ensures terminals == old(terminals)[id := Record(old(terminals)[id], Text(text))]
    {
      terminals := terminals[id := Record(terminals[id], Text(text))];
    }

    /** `terminal.show()`. */
    method Show(id: nat)
      requires id < |terminals|
      modifies this
      ensures terminals == old(terminals)[id := Record(old(terminals)[id], Action.Show)]
    {
      terminals := terminals[id := Record(terminals[id], Action.Show)];
    }

    /** `terminal.dispose()`. */
    method Dispose(id: nat)
      requires id < |terminals|
      modifies this
      ensures terminals == old(terminals)[id := old(terminals)[id].(disposed := true)]
    {
      terminals := terminals[id := terminals[id].(disposed := true)];
    }
  }
}

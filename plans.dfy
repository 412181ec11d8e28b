/**
 * How the handlers read a folder's config: the `open` array becomes a plan of
 * terminals to create, in order, each child of a tab group pointing back at
 * the group's first terminal; the `close` value becomes the list of macros to
 * execute.
 */
module Plans {
  import opened Wrappers
  import opened Config

  /**
   * One terminal `open` creates: its spec and, for a split child, the position
   * in the plan of the terminal it is attached to.
   */
  datatype Creation = Creation(spec: TerminalSpec, parent: Option<nat>)

  /** The terminal elements of an `open` entry, in order. */
  function Elements(e: OpenEntry): seq<Option<TerminalSpec>>
  {
    match e
    case Single(x) => [x]
    case Group(g) => g
  }

  /** The specs among `xs`, in order, leaving out the null elements. */
  function Present(xs: seq<Option<TerminalSpec>>): seq<TerminalSpec>
  {
    if xs == [] then []
    else Present(xs[..|xs| - 1]) + (if xs[|xs| - 1].Some? then [xs[|xs| - 1].value] else [])
  }

  lemma {:induction false} PresentConcat(a: seq<Option<TerminalSpec>>, b: seq<Option<TerminalSpec>>)
    ensures Present(a + b) == Present(a) + Present(b)
  {
    if b == [] {
      assert a + b == a;
    } else {
      assert (a + b)[..|a + b| - 1] == a + b[..|b| - 1];
      PresentConcat(a, b[..|b| - 1]);
    }
  }

  lemma PresentOne(x: Option<TerminalSpec>)
    ensures Present([x]) == if x.Some? then [x.value] else []
  {
    assert [x][..0] == [];
  }

  /** Without null elements, every element is present, in place. */
  lemma {:induction false} PresentAll(xs: seq<Option<TerminalSpec>>)
    requires forall i :: 0 <= i < |xs| ==> xs[i].Some?
    ensures |Present(xs)| == |xs|
    ensures forall i :: 0 <= i < |xs| ==> Present(xs)[i] == xs[i].value
  {
    if xs != [] {
      PresentAll(xs[..|xs| - 1]);
    }
  }

  /** The specs an `open` entry names, in order: its elements that are not null. */
  function EntrySpecs(e: OpenEntry): seq<TerminalSpec>
  {
    Present(Elements(e))
  }

  /**
   * An array entry whose first element is not null: its later elements are
   * opened as splits of the terminal the first one creates.
   */
  predicate HasHead(e: OpenEntry)
  {
    e.Group? && e.elems != [] && e.elems[0].Some?
  }

  /**
   * What one `openTerminal(data, parent)` adds to the plan: one creation, or
   * none when `data` is null or undefined (reading `name` throws inside its
   * own `try`).
   */
  function Attempt(x: Option<TerminalSpec>, parent: Option<nat>): seq<Creation>
  {
    if x.Some? then [Creation(x.value, parent)] else []
  }

  /** The creations of the later elements of an array, each a split of `parent`. */
  function Splits(xs: seq<Option<TerminalSpec>>, parent: Option<nat>): (r: seq<Creation>)
    ensures |r| == |Present(xs)|
    ensures forall i :: 0 <= i < |r| ==> r[i] == Creation(Present(xs)[i], parent)
  {
    if xs == [] then []
    else Splits(xs[..|xs| - 1], parent) + Attempt(xs[|xs| - 1], parent)
  }

  /**
   * The creations of an array entry whose first terminal lands at position
   * `base` of the plan: `openTerminal(tabData[0])`, then every element of
   * `tabData.slice(1)` as a split of what that call returned. When the first
   * call creates nothing (the first element is null, or the array is empty and
   * `tabData[0]` is undefined), the later elements get no parent and are
   * opened standalone.
   */
  function GroupPlan(g: seq<Option<TerminalSpec>>, base: nat): (r: seq<Creation>)
    ensures |r| == |Present(g)|
    ensures forall i :: 0 <= i < |r| ==> r[i].spec == Present(g)[i]
    ensures forall i :: 0 <= i < |r| ==> r[i].parent == if 0 < i && g[0].Some? then Some(base) else None
  {
    var head := if g == [] then None else g[0];
    var rest := if g == [] then [] else g[1..];
    PresentOne(head);
    assert g != [] ==> g == [head] + rest;
    PresentConcat([head], rest);
    Attempt(head, None) + Splits(rest, if head.Some? then Some(base) else None)
  }

  /** An array entry's plan: its first element's creation, then the splits of the rest. */
  lemma GroupPlanParts(done: seq<Creation>, g: seq<Option<TerminalSpec>>, base: nat)
    ensures var head := if g == [] then None else g[0];
      done + GroupPlan(g, base) ==
      done + Attempt(head, None) + Splits(if g == [] then [] else g[1..], if head.Some? then Some(base) else None)
  {
    var head := if g == [] then None else g[0];
    var rest := if g == [] then [] else g[1..];
    var parent := if head.Some? then Some(base) else None;
    assert GroupPlan(g, base) == Attempt(head, None) + Splits(rest, parent);
  }

  /**
   * The creations of one `open` entry whose first terminal lands at position
   * `base` of the plan. A non-array entry is one standalone terminal, or none
   * when it is null; an array is a tab group.
   */
  function EntryPlan(e: OpenEntry, base: nat): (r: seq<Creation>)
    ensures |r| == |EntrySpecs(e)|
    ensures forall i :: 0 <= i < |r| ==> r[i].spec == EntrySpecs(e)[i]
    ensures forall i :: 0 <= i < |r| ==> r[i].parent == if 0 < i && HasHead(e) then Some(base) else None
  {
    match e
    case Single(x) =>
      PresentOne(x);
      Attempt(x, None)
    case Group(g) => GroupPlan(g, base)
  }

  /** The creations of the entries of `open`, processed in declaration order. */
  function PlanEntries(es: seq<OpenEntry>): seq<Creation>
  {
    if es == [] then []
    else
      var prefix := PlanEntries(es[..|es| - 1]);
      prefix + EntryPlan(es[|es| - 1], |prefix|)
  }

  /** The specs of all entries, flattened in declaration order. */
  function Flatten(es: seq<OpenEntry>): seq<TerminalSpec>
  {
    if es == [] then [] else EntrySpecs(es[0]) + Flatten(es[1..])
  }

  /** The number of non-array entries that are not null. */
  function Singles(es: seq<OpenEntry>): nat
  {
    if es == [] then 0 else (if es[0].Single? && es[0].elem.Some? then 1 else 0) + Singles(es[1..])
  }

  /** The total number of elements of the array entries that are not null. */
  function Grouped(es: seq<OpenEntry>): nat
  {
    if es == [] then 0 else (if es[0].Group? then |Present(es[0].elems)| else 0) + Grouped(es[1..])
  }

  /**
   * Every parent named in a plan is an earlier, standalone creation, and every
   * creation between it and its child is a child of the same parent: a tab
   * group is one contiguous run, one level deep.
   */
  predicate ParentsWellFormed(p: seq<Creation>)
  {
    forall i :: 0 <= i < |p| && p[i].parent.Some? ==>
      && p[i].parent.value < i
      && p[p[i].parent.value].parent.None?
      && forall k :: p[i].parent.value < k <= i ==> p[k].parent == p[i].parent
  }

  lemma {:induction false} FlattenAppend(es: seq<OpenEntry>, e: OpenEntry)
    ensures Flatten(es + [e]) == Flatten(es) + EntrySpecs(e)
  {
    if es != [] {
      assert (es + [e])[1..] == es[1..] + [e];
      FlattenAppend(es[1..], e);
    }
  }

  /**
   * `open` creates the terminals its entries name, one per flat entry and one
   * per element of each array entry, in declaration order.
   */
  lemma {:induction false} PlanFollowsDeclaration(es: seq<OpenEntry>)
    ensures |PlanEntries(es)| == |Flatten(es)|
    ensures forall i :: 0 <= i < |PlanEntries(es)| ==> PlanEntries(es)[i].spec == Flatten(es)[i]
  {
    if es != [] {
      var prefix := es[..|es| - 1];
      assert es == prefix + [es[|es| - 1]];
      PlanFollowsDeclaration(prefix);
      FlattenAppend(prefix, es[|es| - 1]);
    }
  }

  /** The flattened specs number the flat entries plus the elements of the array entries. */
  lemma {:induction false} FlattenCount(es: seq<OpenEntry>)
    ensures |Flatten(es)| == Singles(es) + Grouped(es)
  {
    if es != [] {
      if es[0].Single? {
        PresentOne(es[0].elem);
      }
      FlattenCount(es[1..]);
    }
  }

  /** Every child of a tab group is attached to the group's first terminal. */
  lemma {:induction false} PlanParents(es: seq<OpenEntry>)
    ensures ParentsWellFormed(PlanEntries(es))
  {
    if es != [] {
      var prefix := PlanEntries(es[..|es| - 1]);
      PlanParents(es[..|es| - 1]);
      var e := es[|es| - 1];
      AppendGroup(prefix, EntryPlan(e, |prefix|), HasHead(e));
    }
  }

  /**
   * Appending a run whose later creations are splits of its first (or none
   * of which has a parent) keeps a plan's parents well formed.
   */
  lemma AppendGroup(prefix: seq<Creation>, tail: seq<Creation>, head: bool)
    requires ParentsWellFormed(prefix)
    requires forall i :: 0 <= i < |tail| ==> tail[i].parent == if 0 < i && head then Some(|prefix|) else None
    ensures ParentsWellFormed(prefix + tail)
  {
    var p := prefix + tail;
    forall i | 0 <= i < |p| && p[i].parent.Some?
      ensures p[i].parent.value < i
      ensures p[p[i].parent.value].parent.None?
      ensures forall k :: p[i].parent.value < k <= i ==> p[k].parent == p[i].parent
    {
      if i >= |prefix| {
        assert tail[i - |prefix|] == p[i];
        assert p[|prefix|] == tail[0];
        forall k | p[i].parent.value < k <= i ensures p[k].parent == p[i].parent {
          assert p[k] == tail[k - |prefix|];
        }
      } else {
        assert p[i] == prefix[i];
        assert p[prefix[i].parent.value] == prefix[prefix[i].parent.value];
        forall k | p[i].parent.value < k <= i ensures p[k].parent == p[i].parent {
          assert p[k] == prefix[k];
        }
      }
    }
  }

  /**
   * The entries of `open` are processed in order: the creations of its first
   * `n` entries are a prefix of all its creations.
   */
  lemma {:induction false} PlanPrefix(es: seq<OpenEntry>, n: nat)
    requires n <= |es|
    ensures PlanEntries(es[..n]) <= PlanEntries(es)
  {
    if n == |es| {
      assert es[..n] == es;
    } else {
      var init := es[..|es| - 1];
      assert init[..n] == es[..n];
      PlanPrefix(init, n);
    }
  }

  /**
   * The creations of `plan` from position `at` on create `specs`, in order;
   * when `head` holds every one after the first is a split of the first,
   * otherwise none has a parent.
   */
  predicate PlanRunAt(plan: seq<Creation>, at: nat, specs: seq<TerminalSpec>, head: bool)
  {
    && at + |specs| <= |plan|
    && forall j :: at <= j < at + |specs| ==>
      && plan[j].spec == specs[j - at]
      && plan[j].parent == if at < j && head then Some(at) else None
  }

  /** Creation `j` of a run. */
  lemma RunPoint(plan: seq<Creation>, at: nat, specs: seq<TerminalSpec>, head: bool, j: nat)
    requires PlanRunAt(plan, at, specs, head)
    requires j < |specs|
    ensures at + |specs| <= |plan|
    ensures plan[at + j].spec == specs[j]
    ensures plan[at + j].parent == if 0 < j && head then Some(at) else None
  {
    assert at <= at + j < at + |specs|;
  }

  /** A plan that starts with `before + run`, where `run` creates `specs` as a run, has that run at `|before|`. */
  lemma PrefixRun(plan: seq<Creation>, before: seq<Creation>, run: seq<Creation>, specs: seq<TerminalSpec>, head: bool)
    requires before + run <= plan
    requires |run| == |specs|
    requires forall i :: 0 <= i < |run| ==> run[i].spec == specs[i]
    requires forall i :: 0 <= i < |run| ==> run[i].parent == if 0 < i && head then Some(|before|) else None
    ensures PlanRunAt(plan, |before|, specs, head)
  {
    var off := |before|;
    forall j | off <= j < off + |specs|
      ensures plan[j].spec == specs[j - off]
      ensures plan[j].parent == if off < j && head then Some(off) else None
    {
      assert plan[j] == (before + run)[j] == run[j - off];
    }
  }

  /**
   * The creations of entry `e` follow those of the flattened earlier entries,
   * and a tab group's later elements are splits of its first exactly when
   * that first element is not null.
   */
  lemma EntryInPlan(es: seq<OpenEntry>, e: nat)
    requires e < |es|
    ensures PlanRunAt(PlanEntries(es), |Flatten(es[..e])|, EntrySpecs(es[e]), HasHead(es[e]))
  {
    PlanFollowsDeclaration(es[..e]);
    PlanPrefix(es, e + 1);
    var before := PlanEntries(es[..e]);
    assert es[..e + 1][..e] == es[..e];
    assert PlanEntries(es[..e + 1]) == before + EntryPlan(es[e], |before|);
    PrefixRun(PlanEntries(es), before, EntryPlan(es[e], |before|), EntrySpecs(es[e]), HasHead(es[e]));
  }

  /**
   * The creations `open` performs for a loaded config: none without a config,
   * after a parse failure, or when `open` is absent, falsy or not an array
   * (iterating it throws before anything is created).
   */
  function OpenPlan(v: ConfigValue): seq<Creation>
  {
    PlanEntries(OpenEntries(v))
  }

  /** The entries `open` iterates over: none unless `open` is an array. */
  function OpenEntries(v: ConfigValue): seq<OpenEntry>
  {
    if v.Value? && v.config.open.OpenList? then v.config.open.entries else []
  }

  /**
   * The macros `close` executes for a loaded config: one for a non-empty
   * string, each element in order for an array, none otherwise.
   */
  function ClosePlan(v: ConfigValue): seq<string>
  {
    if !v.Value? then []
    else
      match v.config.close
      case NoClose => []
      case CloseString(m) => if m == "" then [] else [m]
      case CloseList(ms) => ms
      case CloseOther => []
  }
}

/**
 * The folder-change diff: which folders the change handler opens and which it
 * closes, found by comparing URI strings between the remembered folder list
 * and the current one.
 */
module Folders {
  import opened Wrappers
  import opened Config

  /** `folders.find(f => f.uri.toString() === uri)`. */
  function Find(folders: seq<Folder>, uri: string): (r: Option<Folder>)
    ensures r.None? <==> forall k :: 0 <= k < |folders| ==> folders[k].uri != uri
    ensures r.Some? ==> r.value in folders && r.value.uri == uri
  {
    if folders == [] then None
    else if folders[0].uri == uri then Some(folders[0])
    else Find(folders[1..], uri)
  }

  /** `x` is `y` with some elements left out, the rest kept in order. */
  predicate IsSubsequence<T(==)>(x: seq<T>, y: seq<T>)
    decreases |y|
  {
    if x == [] then true
    else if y == [] then false
    else if x[|x| - 1] == y[|y| - 1] then IsSubsequence(x[..|x| - 1], y[..|y| - 1])
    else IsSubsequence(x, y[..|y| - 1])
  }

  /** The folders of `from`, in order, whose URI string no folder of `against` has. */
  function Missing(from: seq<Folder>, against: seq<Folder>): seq<Folder>
  {
    if from == [] then []
    else
      var last := from[|from| - 1];
      Missing(from[..|from| - 1], against) + (if Find(against, last.uri).None? then [last] else [])
  }

  /**
   * `Missing` keeps exactly the folders of `from` whose URI is absent from
   * `against`, in their order in `from`.
   */
  lemma {:induction false} MissingExactly(from: seq<Folder>, against: seq<Folder>)
    ensures forall f :: f in Missing(from, against) <==> f in from && Find(against, f.uri).None?
    ensures IsSubsequence(Missing(from, against), from)
  {
    if from != [] {
      var prefix, last := from[..|from| - 1], from[|from| - 1];
      assert from == prefix + [last];
      MissingExactly(prefix, against);
      var m := Missing(prefix, against);
      if Find(against, last.uri).None? {
        assert Missing(from, against) == m + [last];
        assert (m + [last])[..|m|] == m;
      } else {
        assert Missing(from, against) == m;
        if m != [] {
          // `last` cannot end `m`: everything in `m` has a URI missing from `against`
          assert m[|m| - 1] in m;
          assert m[|m| - 1] != last;
        }
      }
    }
  }

  /** `Missing` keeps every occurrence of a folder it keeps. */
  lemma {:induction false} MissingCounts(from: seq<Folder>, against: seq<Folder>)
    ensures forall f :: multiset(Missing(from, against))[f] == if Find(against, f.uri).None? then multiset(from)[f] else 0
  {
    if from != [] {
      var prefix, last := from[..|from| - 1], from[|from| - 1];
      assert from == prefix + [last];
      MissingCounts(prefix, against);
    }
  }

  lemma MissingAppend(from: seq<Folder>, against: seq<Folder>, f: Folder)
    ensures Missing(from + [f], against) == Missing(from, against) + (if Find(against, f.uri).None? then [f] else [])
  {
    assert (from + [f])[..|from|] == from;
  }

  /** A handler invocation issued by the change listener. */
  datatype Call = OpenFolder(folder: Folder) | CloseFolder(folder: Folder)

  function OpenCalls(fs: seq<Folder>): (r: seq<Call>)
    ensures |r| == |fs|
  {
    seq(|fs|, i requires 0 <= i < |fs| => OpenFolder(fs[i]))
  }

  function CloseCalls(fs: seq<Folder>): (r: seq<Call>)
    ensures |r| == |fs|
  {
    seq(|fs|, i requires 0 <= i < |fs| => CloseFolder(fs[i]))
  }

  lemma CallsAppend(fs: seq<Folder>, f: Folder)
    ensures OpenCalls(fs + [f]) == OpenCalls(fs) + [OpenFolder(f)]
    ensures CloseCalls(fs + [f]) == CloseCalls(fs) + [CloseFolder(f)]
  {
  }

  /** The folders the calls are about, in order. */
  function Targets(cs: seq<Call>): seq<Folder>
  {
    seq(|cs|, i requires 0 <= i < |cs| => cs[i].folder)
  }

  /**
   * The calls one workspace-folder change event issues: `open` for every
   * current folder whose URI was not remembered, then `close` for every
   * remembered folder whose URI is no longer current.
   */
  function FolderDiff(prev: seq<Folder>, curr: seq<Folder>): seq<Call>
  {
    OpenCalls(Missing(curr, prev)) + CloseCalls(Missing(prev, curr))
  }

  lemma OpenCallsHold(fs: seq<Folder>)
    ensures forall f :: OpenFolder(f) in OpenCalls(fs) <==> f in fs
    ensures forall f :: CloseFolder(f) !in OpenCalls(fs)
    ensures Targets(OpenCalls(fs)) == fs
  {
    forall f | OpenFolder(f) in OpenCalls(fs) ensures f in fs {
      var k :| 0 <= k < |fs| && OpenCalls(fs)[k] == OpenFolder(f);
    }
    forall f | f in fs ensures OpenFolder(f) in OpenCalls(fs) {
      var k :| 0 <= k < |fs| && fs[k] == f;
      assert OpenCalls(fs)[k] == OpenFolder(f);
    }
  }

  lemma CloseCallsHold(fs: seq<Folder>)
    ensures forall f :: CloseFolder(f) in CloseCalls(fs) <==> f in fs
    ensures forall f :: OpenFolder(f) !in CloseCalls(fs)
    ensures Targets(CloseCalls(fs)) == fs
  {
    forall f | CloseFolder(f) in CloseCalls(fs) ensures f in fs {
      var k :| 0 <= k < |fs| && CloseCalls(fs)[k] == CloseFolder(f);
    }
    forall f | f in fs ensures CloseFolder(f) in CloseCalls(fs) {
      var k :| 0 <= k < |fs| && fs[k] == f;
      assert CloseCalls(fs)[k] == CloseFolder(f);
    }
  }

  /**
   * `open` is called exactly for the current folders with a new URI and
   * `close` exactly for the remembered folders whose URI is gone.
   */
  lemma FolderDiffExactly(prev: seq<Folder>, curr: seq<Folder>)
    ensures forall f :: OpenFolder(f) in FolderDiff(prev, curr) <==> f in curr && Find(prev, f.uri).None?
    ensures forall f :: CloseFolder(f) in FolderDiff(prev, curr) <==> f in prev && Find(curr, f.uri).None?
  {
    MissingExactly(curr, prev);
    MissingExactly(prev, curr);
    OpenCallsHold(Missing(curr, prev));
    CloseCallsHold(Missing(prev, curr));
  }

  /**
   * Every open comes before every close; the opens follow the current list's
   * order and the closes the remembered list's.
   */
  lemma FolderDiffOrder(prev: seq<Folder>, curr: seq<Folder>)
    ensures forall i, j :: 0 <= i < j < |FolderDiff(prev, curr)| && FolderDiff(prev, curr)[j].OpenFolder? ==> FolderDiff(prev, curr)[i].OpenFolder?
    ensures var n := |Missing(curr, prev)|;
      && IsSubsequence(Targets(FolderDiff(prev, curr)[..n]), curr)
      && IsSubsequence(Targets(FolderDiff(prev, curr)[n..]), prev)
  {
    var added, removed := Missing(curr, prev), Missing(prev, curr);
    MissingExactly(curr, prev);
    MissingExactly(prev, curr);
    var d := FolderDiff(prev, curr);
    assert d[..|added|] == OpenCalls(added);
    assert d[|added|..] == CloseCalls(removed);
    OpenCallsHold(added);
    CloseCallsHold(removed);
  }

  lemma {:induction false} MissingNone(from: seq<Folder>, against: seq<Folder>)
    requires forall k :: 0 <= k < |from| ==> Find(against, from[k].uri).Some?
    ensures Missing(from, against) == []
  {
    if from != [] {
      MissingNone(from[..|from| - 1], against);
    }
  }

  /**
   * When both lists hold the same URIs the event issues no call; in
   * particular, once the current list is stored, an event that changes
   * nothing issues nothing.
   */
  lemma FolderDiffOfSameUris(prev: seq<Folder>, curr: seq<Folder>)
    requires forall k :: 0 <= k < |prev| ==> Find(curr, prev[k].uri).Some?
    requires forall k :: 0 <= k < |curr| ==> Find(prev, curr[k].uri).Some?
    ensures FolderDiff(prev, curr) == []
  {
    MissingNone(curr, prev);
    MissingNone(prev, curr);
  }
}

/** The SwiftUI tree: applying decoded batches to a stored root, the paths that lead to
    its nodes, and appearances. */
module SwiftUiTree {
  import opened Basics
  import opened Bytecode
  import opened UiTree
  import opened UiDelta
  import opened UiPatch
  import opened UiBatch

  datatype HostState = HostState(
    root: Option<WireNode>,
    paths: map<u32, Path>,
    visible: set<u32>,
    appeared: set<u32>,
    values: map<u32, Bytes>)

  const EMPTY_HOST := HostState(None, map[], {}, {}, map[])

  // -------- traversals --------

  function CollectValues(values: map<u32, Bytes>, t: WireNode): map<u32, Bytes>
    decreases t, 1
  {
    var own :=
      if t.kind == INPUT || t.kind == SWITCH
      then values[t.id := if VALUE_KEY in t.props then t.props[VALUE_KEY] else []]
      else values;
    CollectValuesAll(own, t.children)
  }

  function CollectValuesAll(values: map<u32, Bytes>, ts: seq<WireNode>): map<u32, Bytes>
    decreases ts, 0
  {
    if ts == [] then values else CollectValuesAll(CollectValues(values, ts[0]), ts[1..])
  }

  function CollectIds(t: WireNode): set<u32>
    decreases t
  {
    {t.id} + set i, x | 0 <= i < |t.children| && x in CollectIds(t.children[i]) :: x
  }

  function VisitPaths(t: WireNode, path: Path, acc: map<u32, Path>): map<u32, Path>
    decreases t, 1
  {
    VisitAllPaths(t.children, path, 0, acc[t.id := path])
  }

  function VisitAllPaths(ts: seq<WireNode>, path: Path, k: nat, acc: map<u32, Path>): map<u32, Path>
    requires k <= |ts|
    decreases ts, 0, |ts| - k
  {
    if k == |ts| then acc
    else VisitAllPaths(ts, path, k + 1, VisitPaths(ts[k], path + [k], acc))
  }

  function IndexPaths(t: WireNode): map<u32, Path> {
    VisitPaths(t, [], map[])
  }

  // -------- applying a batch --------

  // Collects the values of the changed nodes; stops at the first unknown one.
  function CollectChanged(values: map<u32, Bytes>, changed: seq<u32>, nodes: map<u32, WireNode>)
    : (map<u32, Bytes>, bool)
    decreases |changed|
  {
    if changed == [] then (values, true)
    else if changed[0] !in nodes then (values, false)
    else CollectChanged(CollectValues(values, nodes[changed[0]]), changed[1..], nodes)
  }

  function ApplyChanged(t: WireNode, changed: seq<u32>, nodes: map<u32, WireNode>,
                        paths: map<u32, Path>, revs: map<u32, nat>): Option<WireNode>
    decreases |changed|
  {
    if changed == [] then Some(t)
    else if changed[0] !in nodes || changed[0] !in paths then None
    else
      match Replacing(t, paths[changed[0]], nodes[changed[0]], revs)
      case None => None
      case Some(t') => ApplyChanged(t', changed[1..], nodes, paths, revs)
  }

  predicate Incremental(h: HostState, b: Batch) {
    && h.root.Some? && !b.structureChanged
    && h.root.value.id == b.rootMeta.id && h.root.value.kind == b.rootMeta.kind
  }

  // The new host state and whether the call returned normally.
  function ApplyBatch(h: HostState, b: Batch): (HostState, bool) {
    if b.operation.OtherOperation? then (h, false)
    else if Incremental(h, b) then
      if h.root.value.revision == b.rootMeta.revision then (h, true)
      else if b.changed == [] then (h, false)
      else
        var (values, found) := CollectChanged(h.values, b.changed, b.nodesById);
        var h' := h.(values := values);
        if !found then (h', false)
        else if b.root.Some? then (h'.(root := b.root), true)
        else
          match ApplyChanged(h.root.value, b.changed, b.nodesById, h.paths, b.revisions)
          case None => (h', false)
          case Some(next) => (h'.(root := Some(next.(revision := b.rootMeta.revision))), true)
    else if b.root.None? then (h, false)
    else
      var root := b.root.value;
      var visible := CollectIds(root);
      (HostState(Some(root), IndexPaths(root), visible, h.appeared * visible,
                 CollectValues(h.values, root)), true)
  }

  // A message travels through the decoder and then the applier.
  ghost function Receive(h: HostState, m: Message): (HostState, bool) {
    match Decode(m)
    case None => (h, false)
    case Some(b) => ApplyBatch(h, b)
  }

  // -------- shapes --------

  ghost predicate SameShape(a: WireNode, b: WireNode)
    decreases a
  {
    && a.id == b.id && a.kind == b.kind && |a.children| == |b.children|
    && forall i :: 0 <= i < |a.children| ==> SameShape(a.children[i], b.children[i])
  }

  // Without a structural change, the revised tree has the old tree's shape.
  lemma {:induction false} ShapeKept(prev: map<u32, Snap>, p: Snap, n: Snap)
    requires Covers(prev, p) && p.id == n.id && p.kind == n.kind
    requires !Structural(Assign(prev, n))
    ensures SameShape(Wire(p), Wire(Assign(prev, n)))
    decreases p
  {
    var a := Assign(prev, n);
    assert SameChildIdentity(p, a);
    forall i | 0 <= i < |p.children| ensures SameShape(Wire(p).children[i], Wire(a).children[i]) {
      assert a.children[i] == Assign(prev, n.children[i]) && !Structural(a.children[i]);
      ShapeKept(prev, p.children[i], n.children[i]);
    }
  }

  lemma {:induction false} ShapePaths(a: WireNode, b: WireNode, path: Path, acc: map<u32, Path>)
    requires SameShape(a, b)
    ensures VisitPaths(a, path, acc) == VisitPaths(b, path, acc)
    ensures CollectIds(a) == CollectIds(b)
    decreases a, 1
  {
    ShapePathsAll(a, b, path, 0, acc[a.id := path]);
    forall i | 0 <= i < |a.children| ensures CollectIds(a.children[i]) == CollectIds(b.children[i]) {
      ShapePaths(a.children[i], b.children[i], path, acc);
    }
  }

  lemma {:induction false} ShapePathsAll(a: WireNode, b: WireNode, path: Path, k: nat, acc: map<u32, Path>)
    requires SameShape(a, b) && k <= |a.children|
    ensures VisitAllPaths(a.children, path, k, acc) == VisitAllPaths(b.children, path, k, acc)
    decreases a, 0, |a.children| - k
  {
    if k == |a.children| {
    } else {
      ShapePaths(a.children[k], b.children[k], path + [k], acc);
      ShapePathsAll(a, b, path, k + 1, VisitPaths(a.children[k], path + [k], acc));
    }
  }

  // -------- the path index finds every node --------

  ghost predicate PathsHold(r: map<u32, Path>, t: WireNode, path: Path)
    decreases t
  {
    && t.id in r && r[t.id] == path
    && forall i :: 0 <= i < |t.children| ==> PathsHold(r, t.children[i], path + [i])
  }

  lemma {:induction false} PathsHoldGrows(small: map<u32, Path>, big: map<u32, Path>, t: WireNode, path: Path)
    requires PathsHold(small, t, path)
    requires forall x :: x in small && x in IdList(WireNodes(t)) ==> x in big && big[x] == small[x]
    ensures PathsHold(big, t, path)
    decreases t
  {
    assert IdList(WireNodes(t))[0] == t.id;
    forall i | 0 <= i < |t.children| ensures PathsHold(big, t.children[i], path + [i]) {
      ChildIds(t, i);
      PathsHoldGrows(small, big, t.children[i], path + [i]);
    }
  }

  lemma {:induction false} ChildIds(t: WireNode, i: nat)
    requires i < |t.children|
    ensures forall x :: x in IdList(WireNodes(t.children[i])) ==> x in IdList(WireNodes(t))
  {
    ListIds(t.children, i);
    assert IdList(WireNodes(t)) == [t.id] + IdList(WireNodesAll(t.children));
  }

  lemma {:induction false} ListIds(ts: seq<WireNode>, i: nat)
    requires i < |ts|
    ensures forall x :: x in IdList(WireNodes(ts[i])) ==> x in IdList(WireNodesAll(ts))
  {
    assert IdList(WireNodesAll(ts)) == IdList(WireNodes(ts[0])) + IdList(WireNodesAll(ts[1..]));
    if i == 0 {
    } else {
      ListIds(ts[1..], i - 1);
    }
  }

  // With unique IDs the index leads to every node, and touches no other entry.
  lemma {:induction false} VisitFinds(t: WireNode, path: Path, acc: map<u32, Path>)
    requires UniqueIds(t)
    ensures PathsHold(VisitPaths(t, path, acc), t, path)
    ensures forall x :: x !in IdList(WireNodes(t)) ==>
      (x in VisitPaths(t, path, acc) <==> x in acc)
      && (x in acc ==> VisitPaths(t, path, acc)[x] == acc[x])
    decreases t, 1
  {
    var start := acc[t.id := path];
    assert IdList(WireNodes(t)) == [t.id] + IdList(WireNodesAll(t.children));
    DistinctConcat([t.id], IdList(WireNodesAll(t.children)));
    assert t.id in [t.id];
    assert t.children[0..] == t.children;
    VisitFindsAll(t.children, path, 0, start);
  }

  lemma {:induction false} VisitFindsAll(ts: seq<WireNode>, path: Path, k: nat, acc: map<u32, Path>)
    requires k <= |ts| && Distinct(IdList(WireNodesAll(ts[k..])))
    ensures var r := VisitAllPaths(ts, path, k, acc);
      && (forall i :: k <= i < |ts| ==> PathsHold(r, ts[i], path + [i]))
      && forall x :: x !in IdList(WireNodesAll(ts[k..])) ==>
           (x in r <==> x in acc) && (x in acc ==> r[x] == acc[x])
    decreases ts, 0, |ts| - k
  {
    if k == |ts| {
    } else {
      var first, rest := WireNodes(ts[k]), WireNodesAll(ts[k + 1..]);
      assert ts[k..][0] == ts[k] && ts[k..][1..] == ts[k + 1..];
      assert IdList(WireNodesAll(ts[k..])) == IdList(first) + IdList(rest);
      DistinctConcat(IdList(first), IdList(rest));
      var mid := VisitPaths(ts[k], path + [k], acc);
      VisitFinds(ts[k], path + [k], acc);
      VisitFindsAll(ts, path, k + 1, mid);
      PathsHoldGrows(mid, VisitAllPaths(ts, path, k, acc), ts[k], path + [k]);
    }
  }

  lemma {:induction false} PathOf(r: map<u32, Path>, t: WireNode, base: Path, path: Path)
    requires PathsHold(r, t, base) && ValidPath(t, path)
    ensures At(t, path).id in r && r[At(t, path).id] == base + path
    decreases path
  {
    if path != [] {
      PathOf(r, t.children[path[0]], base + [path[0]], path[1..]);
      assert base + [path[0]] + path[1..] == base + path;
    } else {
      assert base + path == base;
    }
  }

  // -------- wire IDs are snapshot IDs --------

  lemma {:induction false} WireIds(t: Snap)
    ensures IdList(WireNodes(Wire(t))) == SnapIds(t)
    decreases t, 1
  {
    WireIdsAll(t.children);
    assert Wire(t).children == WireAll(t.children);
    assert IdList(WireNodes(Wire(t))) == [t.id] + IdList(WireNodesAll(WireAll(t.children)));
  }

  lemma {:induction false} WireIdsAll(ts: seq<Snap>)
    ensures IdList(WireNodesAll(WireAll(ts))) == SnapIdsAll(ts)
    decreases ts, 0
  {
    if ts == [] {
    } else {
      WireIds(ts[0]);
      WireIdsAll(ts[1..]);
      assert WireAll(ts)[0] == Wire(ts[0]) && WireAll(ts)[1..] == WireAll(ts[1..]);
      assert IdList(WireNodesAll(WireAll(ts)))
          == IdList(WireNodes(Wire(ts[0]))) + IdList(WireNodesAll(WireAll(ts[1..])));
    }
  }

  // -------- appearances --------

  function ApplyEach(h: HostState, bs: seq<Batch>): HostState
    decreases |bs|
  {
    if bs == [] then h else ApplyEach(ApplyBatch(h, bs[0]).0, bs[1..])
  }

  // A node that has appeared does not appear again while it stays visible, whatever
  // batches arrive.
  lemma {:induction false} AppearanceLasts(h: HostState, bs: seq<Batch>, id: u32)
    requires id in h.appeared
    requires forall k :: 0 <= k <= |bs| ==> id in ApplyEach(h, bs[..k]).visible
    ensures id in ApplyEach(h, bs).appeared
    decreases |bs|
  {
    if bs == [] {
      assert ApplyEach(h, bs) == h;
    } else {
      var next := ApplyBatch(h, bs[0]).0;
      forall k | 0 <= k <= |bs[1..]| ensures ApplyEach(next, bs[1..][..k]) == ApplyEach(h, bs[..k + 1]) {
        assert bs[..k + 1][1..] == bs[1..][..k];
      }
      assert next == ApplyEach(next, bs[1..][..0]) == ApplyEach(h, bs[..0 + 1]);
      AppearanceKept(h, bs[0], id);
      hide ApplyBatch;
      AppearanceLasts(next, bs[1..], id);
    }
  }

  lemma {:induction false} AppearanceKept(h: HostState, b: Batch, id: u32)
    requires id in h.appeared && id in ApplyBatch(h, b).0.visible
    ensures id in ApplyBatch(h, b).0.appeared
  {
    hide CollectValues, CollectChanged, IndexPaths, CollectIds, ApplyChanged;
  }

  // -------- the observable object --------

  class Tree {
    var root: Option<WireNode>
    var pathsById: map<u32, Path>
    var visibleNodeIds: set<u32>
    var appearedNodeIds: set<u32>
    var values: map<u32, Bytes>

    function State(): HostState
      reads this
    {
      HostState(root, pathsById, visibleNodeIds, appearedNodeIds, values)
    }

    constructor ()
      ensures State() == EMPTY_HOST
    {
      root, pathsById, visibleNodeIds := None, map[], {};
      appearedNodeIds, values := {}, map[];
    }

    method Apply(b: Batch) returns (ok: bool)
      modifies this
      ensures (State(), ok) == ApplyBatch(old(State()), b)
    {
      if b.operation.OtherOperation? {
        return false;
      }
      if root.Some? && !b.structureChanged && root.value.id == b.rootMeta.id
         && root.value.kind == b.rootMeta.kind
      {
        if root.value.revision == b.rootMeta.revision {
          return true;
        }
        if |b.changed| == 0 {
          return false;
        }
        var found := CollectAll(b.changed, b.nodesById);
        if !found {
          return false;
        }
        if b.root.Some? {
          root := b.root;
          return true;
        }
        var next := root.value;
        for k := 0 to |b.changed|
          invariant ApplyChanged(root.value, b.changed, b.nodesById, pathsById, b.revisions)
                 == ApplyChanged(next, b.changed[k..], b.nodesById, pathsById, b.revisions)
        {
          var id := b.changed[k];
          assert b.changed[k..][0] == id && b.changed[k..][1..] == b.changed[k + 1..];
          if id !in b.nodesById || id !in pathsById {
            return false;
          }
          var updated := Replacing(next, pathsById[id], b.nodesById[id], b.revisions);
          if updated.None? {
            return false;
          }
          next := updated.value;
        }
        if next.revision != b.rootMeta.revision {
          next := next.(revision := b.rootMeta.revision);
        }
        root := Some(next);
        return true;
      }
      if b.root.None? {
        return false;
      }
      var nextRoot := b.root.value;
      var nextVisible := CollectIds(nextRoot);
      appearedNodeIds := appearedNodeIds * nextVisible;
      visibleNodeIds := nextVisible;
      values := CollectValues(values, nextRoot);
      pathsById := IndexPaths(nextRoot);
      root := Some(nextRoot);
      return true;
    }

    method CollectAll(changed: seq<u32>, nodes: map<u32, WireNode>) returns (found: bool)
      modifies this`values
      ensures (values, found) == CollectChanged(old(values), changed, nodes)
    {
      for k := 0 to |changed|
        invariant CollectChanged(old(values), changed, nodes) == CollectChanged(values, changed[k..], nodes)
      {
        assert changed[k..][0] == changed[k] && changed[k..][1..] == changed[k + 1..];
        if changed[k] !in nodes {
          return false;
        }
        values := CollectValues(values, nodes[changed[k]]);
      }
      return true;
    }

    // A node's first appearance is reported once while it stays visible.
    method Appear(id: u32) returns (emitted: bool)
      modifies this`appearedNodeIds
      ensures emitted == (id in visibleNodeIds && id !in old(appearedNodeIds))
      ensures appearedNodeIds == old(appearedNodeIds) + if emitted then {id} else {}
      ensures id in visibleNodeIds ==> id in appearedNodeIds
    {
      if id !in visibleNodeIds || id in appearedNodeIds {
        return false;
      }
      appearedNodeIds := appearedNodeIds + {id};
      return true;
    }
  }
}

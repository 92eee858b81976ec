/** One render, two wire versions, one result: the decoder accepts both messages,
    the applier reports no error, and both hosts hold the new tree. */
module UiAgreement {
  import opened Basics
  import opened Bytecode
  import opened UiTree
  import opened UiDelta
  import opened UiPatch
  import opened UiBatch
  import opened SwiftUiTree

  // The host shows exactly the snapshot the runtime last delivered.
  ghost predicate Synced(h: HostState, last: Option<Snap>) {
    match last
    case None => h.root == None
    case Some(p) =>
      && h.root == Some(Wire(p))
      && h.paths == IndexPaths(Wire(p))
      && h.visible == CollectIds(Wire(p))
  }

  // -------- the lists of the delta --------

  lemma {:induction false} ChangedInTree(t: Snap)
    ensures forall k :: 0 <= k < |ChangedNodes(t)| ==> Wire(ChangedNodes(t)[k]) in WireNodes(Wire(t))
    ensures Distinct(SnapIds(t)) ==>
      forall k :: 0 <= k < |ChangedNodes(t)| ==> Distinct(SnapIds(ChangedNodes(t)[k]))
    decreases t, 1
  {
    assert Wire(t).children == WireAll(t.children);
    DistinctConcat([t.id], SnapIdsAll(t.children));
    ChangedInTrees(t.children);
  }

  lemma {:induction false} ChangedInTrees(ts: seq<Snap>)
    ensures forall k :: 0 <= k < |ChangedNodesAll(ts)| ==>
      Wire(ChangedNodesAll(ts)[k]) in WireNodesAll(WireAll(ts))
    ensures Distinct(SnapIdsAll(ts)) ==>
      forall k :: 0 <= k < |ChangedNodesAll(ts)| ==> Distinct(SnapIds(ChangedNodesAll(ts)[k]))
    decreases ts, 0
  {
    if ts == [] {
    } else {
      ChangedInTree(ts[0]);
      ChangedInTrees(ts[1..]);
      DistinctConcat(SnapIds(ts[0]), SnapIdsAll(ts[1..]));
      assert WireAll(ts)[0] == Wire(ts[0]) && WireAll(ts)[1..] == WireAll(ts[1..]);
    }
  }

  lemma {:induction false} RevisedCovered(index: map<u32, Snap>, t: Snap)
    requires Covers(index, t)
    ensures forall k :: 0 <= k < |RevisedNodes(t)| ==>
      RevisedNodes(t)[k].id in index && index[RevisedNodes(t)[k].id] == RevisedNodes(t)[k]
    decreases t, 1
  {
    RevisedCoveredAll(index, t.children);
  }

  lemma {:induction false} RevisedCoveredAll(index: map<u32, Snap>, ts: seq<Snap>)
    requires forall i :: 0 <= i < |ts| ==> Covers(index, ts[i])
    ensures forall k :: 0 <= k < |RevisedNodesAll(ts)| ==>
      RevisedNodesAll(ts)[k].id in index && index[RevisedNodesAll(ts)[k].id] == RevisedNodesAll(ts)[k]
    decreases ts, 0
  {
    if ts == [] {
    } else {
      RevisedCovered(index, ts[0]);
      RevisedCoveredAll(index, ts[1..]);
    }
  }

  lemma {:induction false} AgreeWithIndex(revs: map<u32, nat>, index: map<u32, Snap>, t: Snap)
    requires Covers(index, t)
    requires forall x :: x in revs ==> x in index && index[x].revision == revs[x]
    ensures RevisionsAgree(revs, Wire(t))
    decreases t
  {
    forall i | 0 <= i < |t.children| ensures RevisionsAgree(revs, Wire(t).children[i]) {
      AgreeWithIndex(revs, index, t.children[i]);
    }
  }

  lemma {:induction false} CoverFromList(revs: map<u32, nat>, t: Snap)
    requires !Structural(t)
    requires forall k :: 0 <= k < |RevisedNodes(t)| ==> RevisedNodes(t)[k].id in revs
    ensures RevisionsCover(revs, t)
    decreases t, 1
  {
    if t.changed {
      assert RevisedNodes(t)[0] == t;
    }
    if t.kind != LIST {
      var own, below := if t.changed then [t] else [], RevisedNodesAll(t.children);
      hide RevisedNodesAll;
      assert RevisedNodes(t) == own + below;
      forall k | 0 <= k < |below| ensures below[k].id in revs {
        assert below[k] == RevisedNodes(t)[|own| + k];
      }
      CoverFromLists(revs, t.children);
    }
  }

  lemma {:induction false} CoverFromLists(revs: map<u32, nat>, ts: seq<Snap>)
    requires !AnyStructural(ts)
    requires forall k :: 0 <= k < |RevisedNodesAll(ts)| ==> RevisedNodesAll(ts)[k].id in revs
    ensures forall i :: 0 <= i < |ts| ==> RevisionsCover(revs, ts[i])
    decreases ts, 0
  {
    if ts == [] {
    } else {
      var first, rest := RevisedNodes(ts[0]), RevisedNodesAll(ts[1..]);
      assert !Structural(ts[0]);
      assert forall k :: 0 <= k < |first| ==> first[k] == RevisedNodesAll(ts)[k];
      assert forall k :: 0 <= k < |rest| ==> rest[k] == RevisedNodesAll(ts)[|first| + k];
      forall i | 0 <= i < |ts[1..]| ensures !Structural(ts[1..][i]) {
        assert ts[1..][i] == ts[i + 1];
      }
      CoverFromList(revs, ts[0]);
      CoverFromLists(revs, ts[1..]);
      forall i | 0 < i < |ts| ensures RevisionsCover(revs, ts[i]) {
        assert ts[i] == ts[1..][i - 1];
      }
    }
  }

  // The transmitted table agrees with the new tree and covers every ancestor.
  lemma {:induction false} TableAgrees(a: Snap)
    requires Distinct(SnapIds(a)) && !Structural(a)
    ensures var revs := RevisionMap(RevisionsOf(RevisedNodes(a)));
      RevisionsAgree(revs, Wire(a)) && RevisionsCover(revs, a)
  {
    var rows := RevisionsOf(RevisedNodes(a));
    var revs := RevisionMap(rows);
    var index := IndexSnapshot(a, map[]);
    IndexCovers(a, map[]);
    RevisedCovered(index, a);
    RevisionMapFinds(rows);
    AgreeWithIndex(revs, index, a);
    forall k | 0 <= k < |RevisedNodes(a)| ensures RevisedNodes(a)[k].id in revs {
      assert RevisionIds(rows)[k] == RevisedNodes(a)[k].id;
    }
    CoverFromList(revs, a);
  }

  // -------- decoding --------

  // The decoded batch, with every changed ID leading to its new subtree.
  ghost predicate Carries(b: Batch, a: Snap) {
    && b.structureChanged == Structural(a)
    && !b.operation.OtherOperation?
    && b.changed == IdsOf(ChangedNodes(a))
    && b.rootMeta == RootMeta(a.id, a.kind, a.revision)
    && (forall k :: 0 <= k < |ChangedNodes(a)| ==>
          ChangedNodes(a)[k].id in b.nodesById
          && b.nodesById[ChangedNodes(a)[k].id] == Wire(ChangedNodes(a)[k]))
  }

  lemma {:induction false} PatchNodesDecode(a: Snap)
    requires Distinct(SnapIds(a))
    ensures var nodes := WireAll(ChangedNodes(a));
      && Distinct(IdList(nodes)) && (forall k :: 0 <= k < |nodes| ==> UniqueIds(nodes[k]))
      && forall k :: 0 <= k < |ChangedNodes(a)| ==>
           ChangedNodes(a)[k].id in NodeMap(nodes)
           && NodeMap(nodes)[ChangedNodes(a)[k].id] == Wire(ChangedNodes(a)[k])
  {
    var changed := ChangedNodes(a);
    var nodes := WireAll(changed);
    ChangedIds(a);
    ChangedInTree(a);
    hide ChangedNodes;
    assert IdList(nodes) == IdsOf(changed);
    forall k | 0 <= k < |nodes| ensures UniqueIds(nodes[k]) {
      WireIds(changed[k]);
    }
    NodeMapFinds(nodes);
    forall k | 0 <= k < |changed|
      ensures changed[k].id in NodeMap(nodes) && NodeMap(nodes)[changed[k].id] == Wire(changed[k])
    {
      assert nodes[k].id == changed[k].id;
    }
  }

  lemma {:induction false} RootNodesDecode(a: Snap)
    requires Distinct(SnapIds(a))
    ensures UniqueIds(Wire(a))
    ensures var nodes := WireNodes(Wire(a));
      forall k :: 0 <= k < |ChangedNodes(a)| ==>
        ChangedNodes(a)[k].id in NodeMap(nodes)
        && NodeMap(nodes)[ChangedNodes(a)[k].id] == Wire(ChangedNodes(a)[k])
  {
    var changed, nodes := ChangedNodes(a), WireNodes(Wire(a));
    ChangedInTree(a);
    WireIds(a);
    NodeMapFinds(nodes);
    hide ChangedNodes, WireNodes;
    forall k | 0 <= k < |changed|
      ensures changed[k].id in NodeMap(nodes) && NodeMap(nodes)[changed[k].id] == Wire(changed[k])
    {
      var j :| 0 <= j < |nodes| && nodes[j] == Wire(changed[k]);
    }
  }

  // The decoder's checks, given what the message carries.
  lemma {:induction false} ChecksPass(m: Message, changed: seq<Snap>, meta: RootMeta, nodes: map<u32, WireNode>,
                                      rows: seq<Revision>)
    requires !m.operation.OtherOperation? && (m.operation.Replace? ==> m.root.Some?)
    requires m.operation.Patch? ==> m.wireVersion == Some(WIRE_V2) && m.structureChanged == Some(false)
    requires m.changed == Some(IdsOf(changed)) && Distinct(IdsOf(changed))
    requires DecodedNodes(m) == Some((meta, nodes))
    requires rows == (if m.revisions.Some? then m.revisions.value else []) && Distinct(RevisionIds(rows))
    requires forall k :: 0 <= k < |changed| ==> changed[k].id in nodes
    ensures Decode(m).Some?
    ensures var b := Decode(m).value;
      && b.operation == m.operation && b.root == m.root && b.changed == IdsOf(changed)
      && b.structureChanged == (m.structureChanged.None? || m.structureChanged.value)
      && b.rootMeta == meta && b.nodesById == nodes && b.revisions == RevisionMap(rows)
  {
    hide DecodedNodes;
    assert AllKnown(IdsOf(changed), nodes);
  }

  lemma {:induction false} EveryBatchDecodes(wire: nat, a: Snap)
    requires wire == WIRE_V1 || wire == WIRE_V2
    requires Distinct(SnapIds(a))
    ensures Decode(Emit(wire, a)).Some?
    ensures var b := Decode(Emit(wire, a)).value;
      && Carries(b, a)
      && b.root == (if wire == WIRE_V2 && !Structural(a) then None else Some(Wire(a)))
      && (b.root.None? ==> b.revisions == RevisionMap(RevisionsOf(RevisedNodes(a))))
  {
    ChangedIds(a);
    RevisedIds(a);
    PatchNodesDecode(a);
    RootNodesDecode(a);
    hide ChangedNodes, RevisedNodes, WireNodes, NodeMap, RevisionMap, Structural, SnapIds, UniqueIds, Decode, Wire;
    var m, meta := Emit(wire, a), RootMeta(a.id, a.kind, a.revision);
    if m.operation.Patch? {
      var rows := RevisionsOf(RevisedNodes(a));
      assert RevisionIds(rows) == IdsOf(RevisedNodes(a));
      ChecksPass(m, ChangedNodes(a), meta, NodeMap(WireAll(ChangedNodes(a))), rows);
    } else {
      assert RevisionIds([]) == [];
      RootMetaOfWire(a);
      ChecksPass(m, ChangedNodes(a), meta, NodeMap(WireNodes(Wire(a))), []);
    }
  }

  lemma {:induction false} RootMetaOfWire(a: Snap)
    ensures Wire(a).id == a.id && Wire(a).kind == a.kind && Wire(a).revision == a.revision
  {
  }

  // -------- applying --------

  lemma {:induction false} ValuesAgree(values: map<u32, Bytes>, changed: seq<u32>,
                                       n1: map<u32, WireNode>, n2: map<u32, WireNode>)
    requires forall k :: 0 <= k < |changed| ==>
      changed[k] in n1 && changed[k] in n2 && n1[changed[k]] == n2[changed[k]]
    ensures CollectChanged(values, changed, n1) == CollectChanged(values, changed, n2)
    ensures CollectChanged(values, changed, n1).1
    decreases |changed|
  {
    if changed == [] {
    } else {
      ValuesAgree(CollectValues(values, n1[changed[0]]), changed[1..], n1, n2);
    }
  }

  lemma {:induction false} ApplyIsPatch(t: WireNode, changed: seq<u32>, ps: seq<Path>, goal: WireNode,
                                        nodes: map<u32, WireNode>, paths: map<u32, Path>, revs: map<u32, nat>)
    requires |changed| == |ps|
    requires forall k :: 0 <= k < |ps| ==>
      && changed[k] in nodes && changed[k] in paths && paths[changed[k]] == ps[k]
      && ValidPath(goal, ps[k]) && nodes[changed[k]] == At(goal, ps[k])
    ensures ApplyChanged(t, changed, nodes, paths, revs) == PatchAll(t, ps, goal, revs)
    decreases |ps|
  {
    if ps == [] {
    } else {
      match Replacing(t, ps[0], At(goal, ps[0]), revs)
      case None =>
      case Some(u) => ApplyIsPatch(u, changed[1..], ps[1..], goal, nodes, paths, revs);
    }
  }

  lemma {:induction false} AssignKeepsIds(prev: map<u32, Snap>, n: Snap)
    ensures SnapIds(Assign(prev, n)) == SnapIds(n)
    decreases n, 1
  {
    var a := Assign(prev, n);
    AssignKeepsIdsAll(prev, n.children, a.children);
  }

  lemma {:induction false} AssignKeepsIdsAll(prev: map<u32, Snap>, ns: seq<Snap>, ts: seq<Snap>)
    requires |ts| == |ns| && forall i :: 0 <= i < |ns| ==> ts[i] == Assign(prev, ns[i])
    ensures SnapIdsAll(ts) == SnapIdsAll(ns)
    decreases ns, 0
  {
    if ns == [] {
    } else {
      AssignKeepsIds(prev, ns[0]);
      AssignKeepsIdsAll(prev, ns[1..], ts[1..]);
    }
  }

  // The stored path index still leads to every node the delta names.
  lemma {:induction false} PathsStillLead(prev: map<u32, Snap>, p: Snap, n: Snap)
    requires Covers(prev, p) && p.id == n.id && p.kind == n.kind
    requires Distinct(SnapIds(n)) && !Structural(Assign(prev, n))
    ensures var ps, ns := ChangedPaths(Assign(prev, n)), ChangedNodes(Assign(prev, n));
      && |ps| == |ns|
      && forall k :: 0 <= k < |ps| ==>
           ns[k].id in IndexPaths(Wire(p)) && IndexPaths(Wire(p))[ns[k].id] == ps[k]
  {
    var a := Assign(prev, n);
    AssignKeepsIds(prev, n);
    PathsLead(a);
    ShapeKept(prev, p, n);
    ShapePaths(Wire(p), Wire(a), [], map[]);
    WireIds(a);
    VisitFinds(Wire(a), [], map[]);
    var ps, ns := ChangedPaths(a), ChangedNodes(a);
    forall k | 0 <= k < |ps|
      ensures ns[k].id in IndexPaths(Wire(p)) && IndexPaths(Wire(p))[ns[k].id] == ps[k]
    {
      PathOf(IndexPaths(Wire(a)), Wire(a), [], ps[k]);
      assert [] + ps[k] == ps[k];
    }
  }

  // A patched root is the new root: the applier's loop is the refinement's fold.
  lemma {:induction false} PatchedRoot(p: Snap, n: Snap, b: Batch)
    requires Distinct(SnapIds(p)) && Distinct(SnapIds(n))
    requires p.id == n.id && p.kind == n.kind
    requires var a := Revise(Some(p), n);
      && !Structural(a) && Carries(b, a)
      && b.revisions == RevisionMap(RevisionsOf(RevisedNodes(a)))
    ensures ApplyChanged(Wire(p), b.changed, b.nodesById, IndexPaths(Wire(p)), b.revisions)
         == Some(Wire(Revise(Some(p), n)))
  {
    var prev := PreviousIndex(Some(p));
    var a := Assign(prev, n);
    IndexCovers(p, map[]);
    AssignKeepsIds(prev, n);
    TableAgrees(a);
    PatchRefinesReplace(prev, p, n, b.revisions);
    PathsLead(a);
    PathsStillLead(prev, p, n);
    ApplyIsPatch(Wire(p), b.changed, ChangedPaths(a), Wire(a), b.nodesById, IndexPaths(Wire(p)), b.revisions);
  }

  // A render that is not skipped leaves both hosts in the same state, showing it.
  lemma {:induction false} RenderAgrees(h: HostState, last: Option<Snap>, n: Snap)
    requires Synced(h, last)
    requires n.structureChanged && Distinct(SnapIds(n))
    requires last.Some? ==> Distinct(SnapIds(last.value))
    requires last.Some? && !Structural(Revise(last, n)) ==> last.value.id == n.id && last.value.kind == n.kind
    requires !Skips(last, Revise(last, n))
    ensures Receive(h, Emit(WIRE_V1, Revise(last, n))) == Receive(h, Emit(WIRE_V2, Revise(last, n)))
    ensures Receive(h, Emit(WIRE_V1, Revise(last, n))).1
    ensures Synced(Receive(h, Emit(WIRE_V1, Revise(last, n))).0, Some(Revise(last, n)))
  {
    var a := Revise(last, n);
    AssignKeepsIds(PreviousIndex(last), n);
    EveryBatchDecodes(WIRE_V1, a);
    EveryBatchDecodes(WIRE_V2, a);
    var b1, b2 := Decode(Emit(WIRE_V1, a)).value, Decode(Emit(WIRE_V2, a)).value;
    hide Decode, Emit, Wire, SnapIds;
    if !Structural(a) {
      assert last.Some?;
      var p := last.value;
      IndexCovers(p, map[]);
      ChangeIsSent(p, n);
      ValuesAgree(h.values, b1.changed, b1.nodesById, b2.nodesById);
      PatchedRoot(p, n, b2);
      ShapeKept(PreviousIndex(last), p, n);
      ShapePaths(Wire(p), Wire(a), [], map[]);
      RootMetaOfWire(p);
    }
    RootMetaOfWire(a);
    hide Structural, Assign, CollectChanged, ApplyChanged, IndexPaths, CollectIds, CollectValues, ChangedNodes;
  }

  // A changed tree without structural changes has a changed node to send.
  lemma {:induction false} ChangeIsSent(p: Snap, n: Snap)
    requires Distinct(SnapIds(p)) && Distinct(SnapIds(n)) && p.id == n.id && p.kind == n.kind
    requires !Structural(Revise(Some(p), n)) && Revise(Some(p), n).revision != p.revision
    ensures ChangedNodes(Revise(Some(p), n)) != []
  {
    var a := Revise(Some(p), n);
    IndexCovers(p, map[]);
    AssignKeepsIds(PreviousIndex(Some(p)), n);
    TableAgrees(a);
    PatchRefinesReplace(PreviousIndex(Some(p)), p, n, RevisionMap(RevisionsOf(RevisedNodes(a))));
    RevisionsDecideEquality(PreviousIndex(Some(p)), p, n);
    PathsLead(a);
  }
}

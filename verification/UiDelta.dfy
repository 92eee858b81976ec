/** The C ABI's view of a render: the delta of a revised tree, and the message
    sent to the UI host, a complete root or a patch. */
module UiDelta {
  import opened Basics
  import opened Bytecode
  import opened UiTree

  // A node as it travels to the host: handler numbers and change flags stay behind.
  datatype WireNode = WireNode(
    kind: NodeType,
    id: u32,
    revision: nat,
    props: map<PropertyKey, Bytes>,
    events: set<EventType>,
    children: seq<WireNode>)

  function Props(ps: seq<Property>): map<PropertyKey, Bytes> {
    if ps == [] then map[]
    else Props(ps[..|ps| - 1])[ps[|ps| - 1].key := ps[|ps| - 1].value]
  }

  function EventNames(bs: seq<EventBinding>): set<EventType> {
    set b | b in bs :: b.event
  }

  function Wire(t: Snap): WireNode
    decreases t
  {
    WireNode(t.kind, t.id, t.revision, Props(t.properties), EventNames(t.events),
             seq(|t.children|, i requires 0 <= i < |t.children| => Wire(t.children[i])))
  }

  lemma {:induction false} ExactWire(l: Snap, r: Snap)
    requires Exact(l, r)
    ensures Wire(l) == Wire(r)
    decreases l
  {
    forall i | 0 <= i < |l.children| ensures Wire(l.children[i]) == Wire(r.children[i]) {
      ExactWire(l.children[i], r.children[i]);
    }
    assert Wire(l).children == Wire(r).children;
  }

  // -------- collect_ui_delta --------

  predicate Structural(t: Snap)
    decreases t
  {
    t.structureChanged || exists i | 0 <= i < |t.children| :: Structural(t.children[i])
  }

  predicate AnyStructural(ts: seq<Snap>) {
    exists i | 0 <= i < |ts| :: Structural(ts[i])
  }

  // The nodes whose subtrees are sent.
  function ChangedNodes(t: Snap): seq<Snap>
    decreases t, 1
  {
    if t.structureChanged then []
    else if t.kind == LIST then
      if AnyStructural(t.children) || !t.changed then [] else [t]
    else (if t.localChanged then [t] else []) + ChangedNodesAll(t.children)
  }

  function ChangedNodesAll(ts: seq<Snap>): seq<Snap>
    decreases ts, 0
  {
    if ts == [] then [] else ChangedNodes(ts[0]) + ChangedNodesAll(ts[1..])
  }

  // The nodes whose revisions are sent.
  function RevisedNodes(t: Snap): seq<Snap>
    decreases t, 1
  {
    (if t.changed then [t] else [])
    + if t.structureChanged || t.kind == LIST then [] else RevisedNodesAll(t.children)
  }

  function RevisedNodesAll(ts: seq<Snap>): seq<Snap>
    decreases ts, 0
  {
    if ts == [] then [] else RevisedNodes(ts[0]) + RevisedNodesAll(ts[1..])
  }

  class Delta {
    var structureChanged: bool
    var changed: seq<Snap>
    var revisions: seq<Snap>

    constructor ()
      ensures !structureChanged && changed == [] && revisions == []
    {
      structureChanged, changed, revisions := false, [], [];
    }

    // Collecting appends the subtree's lists; the flag reports a structural change
    // anywhere in the subtree, although lists and structural nodes are not descended.
    method Collect(node: Snap)
      modifies this
      ensures structureChanged == (old(structureChanged) || Structural(node))
      ensures changed == old(changed) + ChangedNodes(node)
      ensures revisions == old(revisions) + RevisedNodes(node)
      decreases node, 1
    {
      if node.changed {
        revisions := revisions + [node];
      }
      if node.structureChanged {
        structureChanged := true;
        return;
      }
      if node.kind == LIST {
        if AnyStructural(node.children) {
          structureChanged := true;
          return;
        }
        if node.changed {
          changed := changed + [node];
        }
        return;
      }
      if node.localChanged {
        changed := changed + [node];
      }
      CollectChildren(node.children);
    }

    method CollectChildren(nodes: seq<Snap>)
      modifies this
      ensures structureChanged == (old(structureChanged) || AnyStructural(nodes))
      ensures changed == old(changed) + ChangedNodesAll(nodes)
      ensures revisions == old(revisions) + RevisedNodesAll(nodes)
      decreases nodes, 0
    {
      for i := 0 to |nodes|
        invariant structureChanged == (old(structureChanged) || AnyStructural(nodes[..i]))
        invariant changed == old(changed) + ChangedNodesAll(nodes[..i])
        invariant revisions == old(revisions) + RevisedNodesAll(nodes[..i])
      {
        DeltaStep(nodes, i);
        Collect(nodes[i]);
      }
      assert nodes[..|nodes|] == nodes;
    }
  }

  lemma {:induction false} DeltaStep(ts: seq<Snap>, i: nat)
    requires i < |ts|
    ensures AnyStructural(ts[..i + 1]) == (AnyStructural(ts[..i]) || Structural(ts[i]))
    ensures ChangedNodesAll(ts[..i + 1]) == ChangedNodesAll(ts[..i]) + ChangedNodes(ts[i])
    ensures RevisedNodesAll(ts[..i + 1]) == RevisedNodesAll(ts[..i]) + RevisedNodes(ts[i])
  {
    assert ts[..i + 1] == ts[..i] + [ts[i]];
    DeltaAppend(ts[..i], ts[i]);
    if Structural(ts[i]) {
      assert ts[..i + 1][i] == ts[i];
    }
    if AnyStructural(ts[..i]) {
      var k :| 0 <= k < i && Structural(ts[..i][k]);
      assert ts[..i + 1][k] == ts[k];
    }
  }

  lemma {:induction false} DeltaAppend(ts: seq<Snap>, t: Snap)
    ensures ChangedNodesAll(ts + [t]) == ChangedNodesAll(ts) + ChangedNodes(t)
    ensures RevisedNodesAll(ts + [t]) == RevisedNodesAll(ts) + RevisedNodes(t)
  {
    hide ChangedNodes, RevisedNodes;
    var all := ts + [t];
    if ts == [] {
      assert all == [t] && all[1..] == [];
    } else {
      DeltaAppend(ts[1..], t);
      assert all[0] == ts[0] && all[1..] == ts[1..] + [t];
    }
  }

  // -------- the message --------

  const WIRE_V1 := 1
  const WIRE_V2 := 2

  datatype Operation = Replace | Patch | OtherOperation

  // A batch as JSON carries it: every field but the operation may be absent.
  datatype Message = Message(
    wireVersion: Option<nat>,
    operation: Operation,
    structureChanged: Option<bool>,
    changed: Option<seq<u32>>,
    root: Option<WireNode>,
    rootMeta: Option<RootMeta>,
    nodes: Option<seq<WireNode>>,
    revisions: Option<seq<Revision>>)

  datatype RootMeta = RootMeta(id: u32, kind: NodeType, revision: nat)
  datatype Revision = Revision(id: u32, revision: nat)

  function IdsOf(ts: seq<Snap>): (r: seq<u32>)
    ensures |r| == |ts|
  {
    seq(|ts|, i requires 0 <= i < |ts| => ts[i].id)
  }

  function WireAll(ts: seq<Snap>): (r: seq<WireNode>)
    ensures |r| == |ts|
  {
    seq(|ts|, i requires 0 <= i < |ts| => Wire(ts[i]))
  }

  function RevisionsOf(ts: seq<Snap>): (r: seq<Revision>)
    ensures |r| == |ts|
  {
    seq(|ts|, i requires 0 <= i < |ts| => Revision(ts[i].id, ts[i].revision))
  }

  // What replace_tree sends for a revised root under the negotiated wire version.
  function Emit(wireVersion: nat, t: Snap): Message {
    var structural, changed := Structural(t), ChangedNodes(t);
    if wireVersion == WIRE_V2 && !structural then
      Message(Some(WIRE_V2), Patch, Some(false), Some(IdsOf(changed)), None,
              Some(RootMeta(t.id, t.kind, t.revision)), Some(WireAll(changed)),
              Some(RevisionsOf(RevisedNodes(t))))
    else
      Message(if wireVersion == WIRE_V2 then Some(WIRE_V2) else None, Replace, Some(structural),
              Some(IdsOf(changed)), Some(Wire(t)), None, None, None)
  }

  // replace_tree: collect the delta, then choose between a patch and a full root.
  method ReplaceTree(wireVersion: nat, root: Snap) returns (message: Message)
    ensures message == Emit(wireVersion, root)
  {
    var delta := new Delta();
    delta.Collect(root);
    assert delta.changed == ChangedNodes(root) && delta.revisions == RevisedNodes(root);
    var ids := WriteIds(delta.changed);
    if wireVersion == WIRE_V2 && !delta.structureChanged {
      var nodes := WriteNodes(delta.changed);
      var revisions := WriteRevisions(delta.revisions);
      return Message(Some(WIRE_V2), Patch, Some(false), Some(ids), None,
                     Some(RootMeta(root.id, root.kind, root.revision)), Some(nodes), Some(revisions));
    }
    return Message(if wireVersion == WIRE_V2 then Some(WIRE_V2) else None, Replace,
                   Some(delta.structureChanged), Some(ids), Some(Wire(root)), None, None, None);
  }

  method WriteIds(ts: seq<Snap>) returns (ids: seq<u32>)
    ensures ids == IdsOf(ts)
  {
    ids := [];
    for i := 0 to |ts|
      invariant ids == IdsOf(ts[..i])
    {
      ids := ids + [ts[i].id];
    }
  }

  method WriteNodes(ts: seq<Snap>) returns (nodes: seq<WireNode>)
    ensures nodes == WireAll(ts)
  {
    nodes := [];
    for i := 0 to |ts|
      invariant nodes == WireAll(ts[..i])
    {
      nodes := nodes + [Wire(ts[i])];
    }
  }

  method WriteRevisions(ts: seq<Snap>) returns (revisions: seq<Revision>)
    ensures revisions == RevisionsOf(ts)
  {
    revisions := [];
    for i := 0 to |ts|
      invariant revisions == RevisionsOf(ts[..i])
    {
      revisions := revisions + [Revision(ts[i].id, ts[i].revision)];
    }
  }

  // -------- identities inside the delta --------

  lemma {:induction false} ChangedIds(t: Snap)
    ensures forall x :: x in IdsOf(ChangedNodes(t)) ==> x in SnapIds(t)
    ensures Distinct(SnapIds(t)) ==> Distinct(IdsOf(ChangedNodes(t)))
    decreases t, 1
  {
    if !t.structureChanged && t.kind != LIST {
      ChangedIdsAll(t.children);
      var own, below := if t.localChanged then [t] else [], ChangedNodesAll(t.children);
      assert IdsOf(ChangedNodes(t)) == IdsOf(own) + IdsOf(below);
      DistinctConcat([t.id], SnapIdsAll(t.children));
      DistinctConcat(IdsOf(own), IdsOf(below));
      assert t.id in [t.id];
    }
  }

  lemma {:induction false} ChangedIdsAll(ts: seq<Snap>)
    ensures forall x :: x in IdsOf(ChangedNodesAll(ts)) ==> x in SnapIdsAll(ts)
    ensures Distinct(SnapIdsAll(ts)) ==> Distinct(IdsOf(ChangedNodesAll(ts)))
    decreases ts, 0
  {
    if ts == [] {
    } else {
      ChangedIds(ts[0]);
      ChangedIdsAll(ts[1..]);
      var first, rest := ChangedNodes(ts[0]), ChangedNodesAll(ts[1..]);
      assert IdsOf(ChangedNodesAll(ts)) == IdsOf(first) + IdsOf(rest);
      DistinctConcat(SnapIds(ts[0]), SnapIdsAll(ts[1..]));
      DistinctConcat(IdsOf(first), IdsOf(rest));
    }
  }

  lemma {:induction false} RevisedIds(t: Snap)
    ensures forall x :: x in IdsOf(RevisedNodes(t)) ==> x in SnapIds(t)
    ensures Distinct(SnapIds(t)) ==> Distinct(IdsOf(RevisedNodes(t)))
    decreases t, 1
  {
    var own := if t.changed then [t] else [];
    var below := if t.structureChanged || t.kind == LIST then [] else RevisedNodesAll(t.children);
    RevisedIdsAll(t.children);
    assert IdsOf(RevisedNodes(t)) == IdsOf(own) + IdsOf(below);
    DistinctConcat([t.id], SnapIdsAll(t.children));
    DistinctConcat(IdsOf(own), IdsOf(below));
    assert t.id in [t.id];
  }

  lemma {:induction false} RevisedIdsAll(ts: seq<Snap>)
    ensures forall x :: x in IdsOf(RevisedNodesAll(ts)) ==> x in SnapIdsAll(ts)
    ensures Distinct(SnapIdsAll(ts)) ==> Distinct(IdsOf(RevisedNodesAll(ts)))
    decreases ts, 0
  {
    if ts == [] {
    } else {
      RevisedIds(ts[0]);
      RevisedIdsAll(ts[1..]);
      var first, rest := RevisedNodes(ts[0]), RevisedNodesAll(ts[1..]);
      assert IdsOf(RevisedNodesAll(ts)) == IdsOf(first) + IdsOf(rest);
      DistinctConcat(SnapIds(ts[0]), SnapIdsAll(ts[1..]));
      DistinctConcat(IdsOf(first), IdsOf(rest));
    }
  }
}

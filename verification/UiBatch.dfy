/** The host's batch decoder: the checks every received message must pass, and
    the indexes it builds for the applier. */
module UiBatch {
  import opened Basics
  import opened UiDelta

  datatype Batch = Batch(
    wireVersion: nat,
    operation: Operation,
    structureChanged: bool,
    changed: seq<u32>,
    root: Option<WireNode>,
    rootMeta: RootMeta,
    revisions: map<u32, nat>,
    nodesById: map<u32, WireNode>)

  // Preorder list of the nodes of a tree.
  function WireNodes(t: WireNode): seq<WireNode>
    decreases t, 1
  {
    [t] + WireNodesAll(t.children)
  }

  function WireNodesAll(ts: seq<WireNode>): seq<WireNode>
    decreases ts, 0
  {
    if ts == [] then [] else WireNodes(ts[0]) + WireNodesAll(ts[1..])
  }

  function IdList(ns: seq<WireNode>): (r: seq<u32>)
    ensures |r| == |ns|
  {
    seq(|ns|, i requires 0 <= i < |ns| => ns[i].id)
  }

  function NodeMap(ns: seq<WireNode>): map<u32, WireNode> {
    if ns == [] then map[] else NodeMap(ns[..|ns| - 1])[ns[|ns| - 1].id := ns[|ns| - 1]]
  }

  function RevisionMap(rs: seq<Revision>): map<u32, nat> {
    if rs == [] then map[] else RevisionMap(rs[..|rs| - 1])[rs[|rs| - 1].id := rs[|rs| - 1].revision]
  }

  function RevisionIds(rs: seq<Revision>): (r: seq<u32>)
    ensures |r| == |rs|
  {
    seq(|rs|, i requires 0 <= i < |rs| => rs[i].id)
  }

  ghost predicate UniqueIds(t: WireNode) {
    Distinct(IdList(WireNodes(t)))
  }

  // -------- what the decoder accepts --------

  ghost predicate AllKnown(changed: seq<u32>, nodes: map<u32, WireNode>) {
    forall k :: 0 <= k < |changed| ==> changed[k] in nodes
  }

  ghost function DecodedNodes(m: Message): Option<(RootMeta, map<u32, WireNode>)> {
    match m.root
    case Some(root) =>
      if UniqueIds(root)
      then Some((RootMeta(root.id, root.kind, root.revision), NodeMap(WireNodes(root)))) else None
    case None =>
      if m.rootMeta.None? || m.nodes.None? then None
      else
        var nodes := m.nodes.value;
        if Distinct(IdList(nodes)) && forall i :: 0 <= i < |nodes| ==> UniqueIds(nodes[i])
        then Some((m.rootMeta.value, NodeMap(nodes))) else None
  }

  ghost function Decode(m: Message): Option<Batch> {
    var wireVersion := if m.wireVersion.Some? then m.wireVersion.value else WIRE_V1;
    var structural := m.structureChanged.None? || m.structureChanged.value;
    var changed := if m.changed.Some? then m.changed.value else [];
    var revisions := if m.revisions.Some? then m.revisions.value else [];
    if m.operation.OtherOperation? then None
    else if m.operation.Patch? && (wireVersion != WIRE_V2 || structural) then None
    else if !Distinct(changed) then None
    else if m.operation.Replace? && m.root.None? then None
    else
      match DecodedNodes(m)
      case None => None
      case Some((meta, nodes)) =>
        if !Distinct(RevisionIds(revisions)) then None
        else if !AllKnown(changed, nodes) then None
        else
          Some(Batch(wireVersion, m.operation, structural, changed, m.root, meta,
                     RevisionMap(revisions), nodes))
  }

  // -------- facts about maps built from lists --------

  lemma {:induction false} NodeMapFinds(ns: seq<WireNode>)
    ensures forall x :: x in NodeMap(ns) <==> x in IdList(ns)
    ensures Distinct(IdList(ns)) ==>
      forall k :: 0 <= k < |ns| ==> ns[k].id in NodeMap(ns) && NodeMap(ns)[ns[k].id] == ns[k]
  {
    if ns == [] {
    } else {
      var front, last := ns[..|ns| - 1], ns[|ns| - 1];
      NodeMapFinds(front);
      assert IdList(ns) == IdList(front) + [last.id];
      DistinctConcat(IdList(front), [last.id]);
      if Distinct(IdList(ns)) {
        forall k | 0 <= k < |ns| ensures ns[k].id in NodeMap(ns) && NodeMap(ns)[ns[k].id] == ns[k] {
          if k < |front| {
            assert front[k] == ns[k] && IdList(front)[k] in IdList(front);
          }
        }
      }
    }
  }

  lemma {:induction false} RevisionMapFinds(rs: seq<Revision>)
    ensures forall x :: x in RevisionMap(rs) <==> x in RevisionIds(rs)
    ensures forall x :: x in RevisionMap(rs) ==>
      exists k :: 0 <= k < |rs| && rs[k].id == x && rs[k].revision == RevisionMap(rs)[x]
  {
    if rs == [] {
    } else {
      var front, last := rs[..|rs| - 1], rs[|rs| - 1];
      RevisionMapFinds(front);
      assert RevisionIds(rs) == RevisionIds(front) + [last.id];
      forall x | x in RevisionMap(rs)
        ensures exists k :: 0 <= k < |rs| && rs[k].id == x && rs[k].revision == RevisionMap(rs)[x]
      {
        if x == last.id {
          assert rs[|rs| - 1].id == x;
        } else {
          var k :| 0 <= k < |front| && front[k].id == x && front[k].revision == RevisionMap(front)[x];
          assert rs[k] == front[k];
        }
      }
    }
  }

  // -------- permutations --------

  lemma {:induction false} DistinctCounts<T>(s: seq<T>)
    ensures Distinct(s) <==> forall x :: x in s ==> multiset(s)[x] == 1
  {
    if s == [] {
    } else {
      assert s == [s[0]] + s[1..];
      DistinctCounts(s[1..]);
      DistinctConcat([s[0]], s[1..]);
      if Distinct(s) {
        forall x | x in s ensures multiset(s)[x] == 1 {
          if x == s[0] {
            assert s[0] in [s[0]] && s[0] !in multiset(s[1..]);
          }
        }
      } else if forall x :: x in s ==> multiset(s)[x] == 1 {
        forall x | x in s[1..] ensures multiset(s[1..])[x] == 1 && x != s[0] {
          assert x in s && multiset(s)[x] == multiset([s[0]])[x] + multiset(s[1..])[x];
        }
      }
    }
  }

  function Without<T>(s: seq<T>, j: nat): seq<T>
    requires j < |s|
  {
    s[..j] + s[j + 1..]
  }

  lemma {:induction false} SplitAt<T>(b: seq<T>, j: nat)
    requires j < |b|
    ensures multiset(b) == multiset{b[j]} + multiset(Without(b, j))
  {
    assert b == b[..j] + ([b[j]] + b[j + 1..]);
  }

  lemma {:induction false} CancelOne<T>(a: seq<T>, b: seq<T>, i: nat, j: nat)
    requires i < |a| && j < |b| && a[i] == b[j]
    ensures multiset(a) == multiset(b) <==> multiset(Without(a, i)) == multiset(Without(b, j))
  {
    SplitAt(a, i);
    SplitAt(b, j);
    hide Without;
    var x, y := multiset(Without(a, i)), multiset(Without(b, j));
    assert x == multiset(a) - multiset{a[i]} && y == multiset(b) - multiset{b[j]};
  }

  lemma {:induction false} PermutedIds(a: seq<WireNode>, b: seq<WireNode>)
    requires multiset(a) == multiset(b)
    ensures multiset(IdList(a)) == multiset(IdList(b))
    decreases |a|
  {
    if a == [] {
      assert |multiset(b)| == 0;
    } else {
      assert a[0] in multiset(b);
      var j :| 0 <= j < |b| && b[j] == a[0];
      CancelOne(a, b, 0, j);
      PermutedIds(Without(a, 0), Without(b, j));
      IdsWithout(a, 0);
      IdsWithout(b, j);
      CancelOne(IdList(a), IdList(b), 0, j);
    }
  }

  lemma {:induction false} IdsWithout(b: seq<WireNode>, j: nat)
    requires j < |b|
    ensures IdList(Without(b, j)) == Without(IdList(b), j)
  {
  }

  lemma {:induction false} PermutedIndex(a: seq<WireNode>, b: seq<WireNode>)
    requires multiset(a) == multiset(b)
    ensures Distinct(IdList(a)) <==> Distinct(IdList(b))
    ensures Distinct(IdList(a)) ==> NodeMap(a) == NodeMap(b)
  {
    PermutedIds(a, b);
    DistinctCounts(IdList(a));
    DistinctCounts(IdList(b));
    forall x ensures x in IdList(a) <==> x in IdList(b) {
      assert x in multiset(IdList(a)) <==> x in multiset(IdList(b));
    }
    if Distinct(IdList(a)) {
      NodeMapFinds(a);
      NodeMapFinds(b);
      hide NodeMap;
      forall x | x in NodeMap(a) ensures NodeMap(a)[x] == NodeMap(b)[x] {
        var k :| 0 <= k < |a| && IdList(a)[k] == x;
        assert a[k] in multiset(b);
        var j :| 0 <= j < |b| && b[j] == a[k];
      }
    }
  }

  lemma {:induction false} NodesAppend(a: seq<WireNode>, b: seq<WireNode>)
    ensures WireNodesAll(a + b) == WireNodesAll(a) + WireNodesAll(b)
  {
    if a == [] {
      assert a + b == b;
    } else {
      var ab := a + b;
      assert ab[0] == a[0] && ab[1..] == a[1..] + b;
      NodesAppend(a[1..], b);
      Associates(WireNodes(a[0]), WireNodesAll(a[1..]), WireNodesAll(b));
    }
  }

  lemma {:induction false} Associates<T>(a: seq<T>, b: seq<T>, c: seq<T>)
    ensures a + (b + c) == (a + b) + c
  {
  }

  // Taking a node off the pending stack and pushing its children loses no node.
  lemma {:induction false} PopNode(rest: seq<WireNode>, node: WireNode)
    ensures multiset(WireNodesAll(rest + [node]))
         == multiset{node} + multiset(WireNodesAll(rest + node.children))
    ensures |WireNodesAll(rest + [node])| == 1 + |WireNodesAll(rest + node.children)|
  {
    NodesAppend(rest, [node]);
    NodesAppend(rest, node.children);
    assert WireNodesAll([node]) == WireNodes(node) + [];
  }

  lemma {:induction false} Visit(seen: seq<WireNode>, node: WireNode)
    requires Distinct(IdList(seen))
    ensures NodeMap(seen + [node]) == NodeMap(seen)[node.id := node]
    ensures node.id in NodeMap(seen) <==> node.id in IdList(seen)
    ensures Distinct(IdList(seen + [node])) <==> node.id !in NodeMap(seen)
  {
    NodeMapFinds(seen);
    assert IdList(seen + [node]) == IdList(seen) + [node.id];
    DistinctConcat(IdList(seen), [node.id]);
    assert (seen + [node])[..|seen|] == seen;
    assert node.id in [node.id];
  }

  // -------- the decoder's index, with its stack of pending nodes --------

  ghost predicate Visiting(root: WireNode, seen: seq<WireNode>, pending: seq<WireNode>) {
    && Distinct(IdList(seen))
    && multiset(seen) + multiset(WireNodesAll(pending)) == multiset(WireNodes(root))
  }

  lemma {:induction false} BeginVisit(root: WireNode)
    ensures Visiting(root, [], [root])
  {
    assert WireNodesAll([root]) == WireNodes(root) + [];
  }

  lemma {:induction false} NextVisit(root: WireNode, seen: seq<WireNode>, rest: seq<WireNode>, node: WireNode)
    requires Visiting(root, seen, rest + [node])
    ensures node.id in NodeMap(seen) ==> !UniqueIds(root)
    ensures node.id !in NodeMap(seen) ==> Visiting(root, seen + [node], rest + node.children)
    ensures NodeMap(seen + [node]) == NodeMap(seen)[node.id := node]
    ensures |WireNodesAll(rest + node.children)| < |WireNodesAll(rest + [node])|
  {
    PopNode(rest, node);
    Visit(seen, node);
    if node.id in NodeMap(seen) {
      Repeated(root, seen, WireNodesAll(rest + node.children), node);
    }
  }

  lemma {:induction false} EndVisit(root: WireNode, seen: seq<WireNode>)
    requires Visiting(root, seen, [])
    ensures UniqueIds(root) && NodeMap(seen) == NodeMap(WireNodes(root))
  {
    PermutedIndex(seen, WireNodes(root));
  }

  method Index(root: WireNode) returns (index: Option<map<u32, WireNode>>)
    ensures index.Some? <==> UniqueIds(root)
    ensures index.Some? ==> index.value == NodeMap(WireNodes(root))
  {
    var found: map<u32, WireNode> := map[];
    var pending := [root];
    ghost var seen: seq<WireNode> := [];
    BeginVisit(root);
    while |pending| > 0
      invariant found == NodeMap(seen) && Visiting(root, seen, pending)
      decreases |WireNodesAll(pending)|
    {
      var node, rest := pending[|pending| - 1], pending[..|pending| - 1];
      assert pending == rest + [node];
      NextVisit(root, seen, rest, node);
      if node.id in found {
        return None;
      }
      found := found[node.id := node];
      seen := seen + [node];
      pending := rest + node.children;
    }
    assert pending == [];
    EndVisit(root, seen);
    return Some(found);
  }

  lemma {:induction false} Repeated(root: WireNode, seen: seq<WireNode>, others: seq<WireNode>, node: WireNode)
    requires multiset(seen) + (multiset{node} + multiset(others)) == multiset(WireNodes(root))
    requires node.id in IdList(seen)
    ensures !UniqueIds(root)
  {
    var all := seen + ([node] + others);
    assert multiset(all) == multiset(WireNodes(root));
    PermutedIndex(all, WireNodes(root));
    var i :| 0 <= i < |seen| && IdList(seen)[i] == node.id;
    assert IdList(all)[i] == seen[i].id && IdList(all)[|seen|] == node.id;
  }

  // The decoder's checks in their order of appearance.
  method DecodeBatch(m: Message) returns (batch: Option<Batch>)
    ensures batch == Decode(m)
  {
    var wireVersion := if m.wireVersion.Some? then m.wireVersion.value else WIRE_V1;
    if m.operation.OtherOperation? {
      return None;
    }
    if m.operation.Patch? && wireVersion != WIRE_V2 {
      return None;
    }
    var structural := m.structureChanged.None? || m.structureChanged.value;
    if m.operation.Patch? && structural {
      return None;
    }
    var changed := if m.changed.Some? then m.changed.value else [];
    var unique := AllDifferent(changed);
    if !unique {
      return None;
    }
    if m.operation.Replace? && m.root.None? {
      return None;
    }
    var indexed := IndexNodes(m);
    if indexed.None? {
      return None;
    }
    var revisions := if m.revisions.Some? then m.revisions.value else [];
    var table := IndexRevisions(revisions);
    if table.None? {
      return None;
    }
    for k := 0 to |changed|
      invariant forall j :: 0 <= j < k ==> changed[j] in indexed.value.1
    {
      if changed[k] !in indexed.value.1 {
        return None;
      }
    }
    return Some(Batch(wireVersion, m.operation, structural, changed, m.root, indexed.value.0,
                      table.value, indexed.value.1));
  }

  method AllDifferent(ids: seq<u32>) returns (unique: bool)
    ensures unique <==> Distinct(ids)
  {
    var seen: set<u32> := {};
    for k := 0 to |ids|
      invariant forall x :: x in seen <==> x in ids[..k]
      invariant Distinct(ids[..k])
    {
      assert ids[..k + 1] == ids[..k] + [ids[k]];
      DistinctConcat(ids[..k], [ids[k]]);
      if ids[k] in seen {
        var j :| 0 <= j < k && ids[..k][j] == ids[k];
        return false;
      }
      seen := seen + {ids[k]};
    }
    assert ids[..|ids|] == ids;
    return true;
  }

  method IndexNodes(m: Message) returns (indexed: Option<(RootMeta, map<u32, WireNode>)>)
    ensures indexed == DecodedNodes(m)
  {
    if m.root.Some? {
      var root := m.root.value;
      var index := Index(root);
      if index.None? {
        return None;
      }
      return Some((RootMeta(root.id, root.kind, root.revision), index.value));
    }
    if m.rootMeta.None? || m.nodes.None? {
      return None;
    }
    var nodes := m.nodes.value;
    var unique := AllDifferent(IdList(nodes));
    if !unique {
      return None;
    }
    for k := 0 to |nodes|
      invariant forall j :: 0 <= j < k ==> UniqueIds(nodes[j])
    {
      var index := Index(nodes[k]);
      if index.None? {
        return None;
      }
    }
    var byId: map<u32, WireNode> := map[];
    for k := 0 to |nodes|
      invariant byId == NodeMap(nodes[..k])
    {
      assert nodes[..k + 1][..k] == nodes[..k];
      byId := byId[nodes[k].id := nodes[k]];
    }
    assert nodes[..|nodes|] == nodes;
    return Some((m.rootMeta.value, byId));
  }

  method IndexRevisions(rs: seq<Revision>) returns (table: Option<map<u32, nat>>)
    ensures table == if Distinct(RevisionIds(rs)) then Some(RevisionMap(rs)) else None
  {
    var found: map<u32, nat> := map[];
    for k := 0 to |rs|
      invariant found == RevisionMap(rs[..k]) && Distinct(RevisionIds(rs[..k]))
    {
      RevisionMapFinds(rs[..k]);
      assert rs[..k + 1][..k] == rs[..k];
      assert RevisionIds(rs[..k + 1]) == RevisionIds(rs[..k]) + [rs[k].id];
      DistinctConcat(RevisionIds(rs[..k]), [rs[k].id]);
      if rs[k].id in found {
        var j :| 0 <= j < k && RevisionIds(rs[..k])[j] == rs[k].id;
        assert RevisionIds(rs)[j] == RevisionIds(rs)[k];
        return None;
      }
      found := found[rs[k].id := rs[k].revision];
    }
    assert rs[..|rs|] == rs;
    return Some(found);
  }
}

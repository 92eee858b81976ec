/** Neutral UI snapshots: how a page is evaluated, how revisions are assigned
    against the previous snapshot, and what an equal revision means. */
module UiTree {
  import opened Basics
  import opened Bytecode

  datatype Property = Property(key: PropertyKey, value: Bytes)

  datatype Snap = Snap(
    kind: NodeType,
    id: u32,
    revision: nat,
    changed: bool,
    localChanged: bool,
    structureChanged: bool,
    properties: seq<Property>,
    events: seq<EventBinding>,
    children: seq<Snap>)

  // -------- evaluating a page --------

  function Decimal(n: nat): Bytes {
    if n < 10 then [48 + n] else Decimal(n / 10) + [48 + n % 10]
  }

  function TextOf(v: Value): Bytes {
    match v
    case IntValue(i) => if i < 0 then [45] + Decimal(0 - i) else Decimal(i)
    case BoolValue(b) => if b then [116, 114, 117, 101] else [102, 97, 108, 115, 101]
    case StringValue(s) => s
  }

  predicate InRange(m: Module, state: seq<Value>, s: Segment) {
    match s
    case ConstantText(i) => i < |m.constants|
    case StateText(i) => i < |state|
  }

  function Evaluate(m: Module, state: seq<Value>, segments: seq<Segment>): Bytes
    requires forall i :: 0 <= i < |segments| ==> InRange(m, state, segments[i])
  {
    if segments == [] then []
    else
      assert InRange(m, state, segments[0]);
      (match segments[0]
       case ConstantText(i) => m.constants[i]
       case StateText(i) => TextOf(state[i])) + Evaluate(m, state, segments[1..])
  }

  // Every index the page refers to exists.
  predicate Renderable(m: Module, state: seq<Value>, n: UiNode)
    decreases n
  {
    && (forall i | 0 <= i < |n.properties| ::
          forall j | 0 <= j < |n.properties[i].segments| ::
            InRange(m, state, n.properties[i].segments[j]))
    && forall i | 0 <= i < |n.children| :: Renderable(m, state, n.children[i])
  }

  lemma {:induction false} CheckedPagesRender(m: Module, state: seq<Value>, n: UiNode)
    requires NodeOk(m, n) && |state| == |m.initialState|
    ensures Renderable(m, state, n)
    decreases n
  {
    forall i | 0 <= i < |n.properties|
      ensures forall j :: 0 <= j < |n.properties[i].segments| ==>
        InRange(m, state, n.properties[i].segments[j])
    {
      assert PropertyOk(m, n.properties[i]);
      forall j | 0 <= j < |n.properties[i].segments|
        ensures InRange(m, state, n.properties[i].segments[j])
      {
        assert SegmentOk(m, n.properties[i].segments[j]);
      }
    }
    forall i | 0 <= i < |n.children| ensures Renderable(m, state, n.children[i]) {
      CheckedPagesRender(m, state, n.children[i]);
    }
  }

  function Snapshot(m: Module, state: seq<Value>, n: UiNode): Snap
    requires Renderable(m, state, n)
    decreases n
  {
    Snap(n.kind, n.id, 0, true, true, true,
         seq(|n.properties|, i requires 0 <= i < |n.properties| =>
           Property(n.properties[i].key, Evaluate(m, state, n.properties[i].segments))),
         n.events,
         seq(|n.children|, i requires 0 <= i < |n.children| => Snapshot(m, state, n.children[i])))
  }

  function SnapIds(t: Snap): seq<u32>
    decreases t, 1
  {
    [t.id] + SnapIdsAll(t.children)
  }

  function SnapIdsAll(ts: seq<Snap>): seq<u32>
    decreases ts, 0
  {
    if ts == [] then [] else SnapIds(ts[0]) + SnapIdsAll(ts[1..])
  }

  // -------- comparisons --------

  predicate SameLocalData(l: Snap, r: Snap) {
    l.properties == r.properties && l.events == r.events
  }

  predicate SameChildIdentity(l: Snap, r: Snap) {
    && |l.children| == |r.children|
    && forall i | 0 <= i < |l.children| ::
         l.children[i].kind == r.children[i].kind && l.children[i].id == r.children[i].id
  }

  predicate SameNodeData(l: Snap, r: Snap) {
    && l.kind == r.kind && SameLocalData(l, r) && SameChildIdentity(l, r)
    && forall i | 0 <= i < |l.children| :: l.children[i].revision == r.children[i].revision
  }

  // Equality of whole subtrees, revisions and change flags aside.
  ghost predicate SameTree(l: Snap, r: Snap)
    decreases l
  {
    && l.kind == r.kind && l.id == r.id && SameLocalData(l, r)
    && |l.children| == |r.children|
    && forall i :: 0 <= i < |l.children| ==> SameTree(l.children[i], r.children[i])
  }

  // -------- assigning revisions --------

  function IndexSnapshot(t: Snap, index: map<u32, Snap>): map<u32, Snap>
    decreases t, 1
  {
    IndexAll(t.children, if t.id in index then index else index[t.id := t])
  }

  function IndexAll(ts: seq<Snap>, index: map<u32, Snap>): map<u32, Snap>
    decreases ts, 0
  {
    if ts == [] then index else IndexAll(ts[1..], IndexSnapshot(ts[0], index))
  }

  // The new tree with its revisions and flags, the u64 bound on revisions aside.
  function Assign(prev: map<u32, Snap>, n: Snap): Snap
    decreases n
  {
    var kids := seq(|n.children|, i requires 0 <= i < |n.children| => Assign(prev, n.children[i]));
    var t := n.(children := kids);
    if n.id !in prev || prev[n.id].kind != n.kind then t.(revision := 1)
    else
      var p := prev[n.id];
      var changed := !SameNodeData(p, t);
      var localChanged := !SameLocalData(p, t);
      t.(localChanged := localChanged,
         structureChanged := !SameChildIdentity(p, t) || (n.kind == NATIVE_SURFACE && localChanged),
         changed := changed,
         revision := if changed then p.revision + 1 else p.revision)
  }

  // Some node would need a revision past the last u64.
  predicate Exhausts(prev: map<u32, Snap>, n: Snap)
    decreases n
  {
    || (exists i | 0 <= i < |n.children| :: Exhausts(prev, n.children[i]))
    || (n.id in prev && prev[n.id].kind == n.kind && Assign(prev, n).changed && prev[n.id].revision >= MAX_U64)
  }

  function PreviousIndex(last: Option<Snap>): map<u32, Snap> {
    if last.None? then map[] else IndexSnapshot(last.value, map[])
  }

  function Revise(last: Option<Snap>, n: Snap): Snap {
    Assign(PreviousIndex(last), n)
  }

  // The condition under which render sends nothing.
  predicate Skips(last: Option<Snap>, a: Snap) {
    last.Some? && last.value.kind == a.kind && last.value.id == a.id && last.value.revision == a.revision
  }

  // Every node of t is the one prev stores under its ID.
  ghost predicate Covers(prev: map<u32, Snap>, t: Snap)
    decreases t
  {
    && t.id in prev && prev[t.id] == t
    && forall i :: 0 <= i < |t.children| ==> Covers(prev, t.children[i])
  }

  ghost predicate RevisionsFit(t: Snap)
    decreases t
  {
    t.revision <= MAX_U64 && forall i :: 0 <= i < |t.children| ==> RevisionsFit(t.children[i])
  }

  // Revisions that fit a u64 stay so, unless the exhaustion error is raised.
  lemma {:induction false} RevisionsKeepFitting(prev: map<u32, Snap>, n: Snap)
    requires forall x :: x in prev ==> prev[x].revision <= MAX_U64
    requires !Exhausts(prev, n)
    ensures RevisionsFit(Assign(prev, n))
    decreases n
  {
    forall i | 0 <= i < |n.children| ensures RevisionsFit(Assign(prev, n).children[i]) {
      RevisionsKeepFitting(prev, n.children[i]);
    }
  }

  // A node that survives with its ID and type keeps its revision exactly when its
  // whole subtree is unchanged; otherwise its revision grows by one.
  lemma {:induction false} RevisionsDecideEquality(prev: map<u32, Snap>, p: Snap, n: Snap)
    requires Covers(prev, p) && p.id == n.id && p.kind == n.kind
    ensures Assign(prev, n).revision == if SameTree(p, n) then p.revision else p.revision + 1
    ensures Assign(prev, n).changed <==> !SameTree(p, n)
    decreases p
  {
    var a := Assign(prev, n);
    assert a.changed == !SameNodeData(p, a);
    if SameChildIdentity(p, a) {
      forall i | 0 <= i < |p.children|
        ensures a.children[i].revision ==
          if SameTree(p.children[i], n.children[i]) then p.children[i].revision
          else p.children[i].revision + 1
      {
        assert a.children[i] == Assign(prev, n.children[i]);
        assert p.children[i].id == a.children[i].id == n.children[i].id;
        RevisionsDecideEquality(prev, p.children[i], n.children[i]);
      }
    } else {
      assert !SameTree(p, n) by {
        if SameTree(p, n) {
          forall i | 0 <= i < |p.children|
            ensures p.children[i].kind == a.children[i].kind && p.children[i].id == a.children[i].id
          {
            assert SameTree(p.children[i], n.children[i]);
            assert a.children[i] == Assign(prev, n.children[i]);
          }
        }
      }
    }
  }

  // Equality of whole subtrees, revisions included.
  ghost predicate Exact(l: Snap, r: Snap)
    decreases l
  {
    && l.kind == r.kind && l.id == r.id && l.revision == r.revision && SameLocalData(l, r)
    && |l.children| == |r.children|
    && forall i :: 0 <= i < |l.children| ==> Exact(l.children[i], r.children[i])
  }

  // An unchanged subtree is reproduced revision by revision.
  lemma {:induction false} UnchangedIsExact(prev: map<u32, Snap>, p: Snap, n: Snap)
    requires Covers(prev, p) && SameTree(p, n)
    ensures Exact(p, Assign(prev, n))
    decreases p
  {
    RevisionsDecideEquality(prev, p, n);
    forall i | 0 <= i < |p.children| ensures Exact(p.children[i], Assign(prev, n).children[i]) {
      UnchangedIsExact(prev, p.children[i], n.children[i]);
    }
  }

  // -------- the index of the previous snapshot --------

  lemma {:induction false} CoversGrows(small: map<u32, Snap>, big: map<u32, Snap>, t: Snap)
    requires Covers(small, t)
    requires forall x :: x in small ==> x in big && big[x] == small[x]
    ensures Covers(big, t)
    decreases t
  {
    forall i | 0 <= i < |t.children| ensures Covers(big, t.children[i]) {
      CoversGrows(small, big, t.children[i]);
    }
  }

  // Indexing adds exactly the tree's IDs, and with unique IDs finds every node.
  lemma {:induction false} IndexCovers(t: Snap, index: map<u32, Snap>)
    requires Distinct(SnapIds(t))
    requires forall x :: x in SnapIds(t) ==> x !in index
    ensures var r := IndexSnapshot(t, index);
      && Covers(r, t)
      && (forall x :: x in index ==> x in r && r[x] == index[x])
      && (forall x :: x in r <==> x in index || x in SnapIds(t))
    decreases t, 1
  {
    var index' := index[t.id := t];
    DistinctConcat([t.id], SnapIdsAll(t.children));
    assert t.id in SnapIds(t) && t.id in [t.id];
    forall x | x in SnapIdsAll(t.children) ensures x !in index' {
      assert x in SnapIds(t);
    }
    IndexCoversAll(t.children, index');
  }

  lemma {:induction false} IndexCoversAll(ts: seq<Snap>, index: map<u32, Snap>)
    requires Distinct(SnapIdsAll(ts))
    requires forall x :: x in SnapIdsAll(ts) ==> x !in index
    ensures var r := IndexAll(ts, index);
      && (forall i :: 0 <= i < |ts| ==> Covers(r, ts[i]))
      && (forall x :: x in index ==> x in r && r[x] == index[x])
      && (forall x :: x in r <==> x in index || x in SnapIdsAll(ts))
    decreases ts, 0
  {
    if ts == [] {
    } else {
      DistinctConcat(SnapIds(ts[0]), SnapIdsAll(ts[1..]));
      IndexCovers(ts[0], index);
      var index' := IndexSnapshot(ts[0], index);
      IndexCoversAll(ts[1..], index');
      var r := IndexAll(ts, index);
      CoversGrows(index', r, ts[0]);
      forall i | 0 <= i < |ts| ensures Covers(r, ts[i]) {
        if i > 0 {
          assert ts[i] == ts[1..][i - 1];
        }
      }
    }
  }

  // -------- snapshots keep the page's skeleton --------

  ghost predicate SameSkeleton(t: Snap, n: UiNode)
    decreases t
  {
    && t.kind == n.kind && t.id == n.id && |t.children| == |n.children|
    && forall i :: 0 <= i < |t.children| ==> SameSkeleton(t.children[i], n.children[i])
  }

  lemma {:induction false} SnapshotSkeleton(m: Module, state: seq<Value>, prev: map<u32, Snap>, n: UiNode)
    requires Renderable(m, state, n)
    ensures SameSkeleton(Snapshot(m, state, n), n)
    ensures SameSkeleton(Assign(prev, Snapshot(m, state, n)), n)
    decreases n
  {
    var s := Snapshot(m, state, n);
    var a := Assign(prev, s);
    forall i | 0 <= i < |n.children|
      ensures SameSkeleton(s.children[i], n.children[i]) && SameSkeleton(a.children[i], n.children[i])
    {
      SnapshotSkeleton(m, state, prev, n.children[i]);
      assert a.children[i] == Assign(prev, s.children[i]);
    }
  }

  lemma {:induction false} SkeletonIds(t: Snap, n: UiNode)
    requires SameSkeleton(t, n)
    ensures SnapIds(t) == Ids(n)
    decreases t, 1
  {
    SkeletonIdsAll(t.children, n.children);
  }

  lemma {:induction false} SkeletonIdsAll(ts: seq<Snap>, ns: seq<UiNode>)
    requires |ts| == |ns|
    requires forall i :: 0 <= i < |ts| ==> SameSkeleton(ts[i], ns[i])
    ensures SnapIdsAll(ts) == IdsAll(ns)
    decreases ts, 0
  {
    if ts == [] {
    } else {
      SkeletonIds(ts[0], ns[0]);
      SkeletonIdsAll(ts[1..], ns[1..]);
    }
  }

  // -------- the runtime's loops --------

  // index_snapshot: enters the subtree into the index, keeping the first node of an ID.
  method IndexNodes(t: Snap, index: map<u32, Snap>) returns (r: map<u32, Snap>)
    ensures r == IndexSnapshot(t, index)
    decreases t
  {
    r := if t.id in index then index else index[t.id := t];
    ghost var start := r;
    for i := 0 to |t.children|
      invariant IndexAll(t.children[i..], r) == IndexAll(t.children, start)
    {
      assert t.children[i..][0] == t.children[i] && t.children[i..][1..] == t.children[i + 1..];
      r := IndexNodes(t.children[i], r);
    }
  }

  // assign_revisions: children first, then the node; None when a revision runs out.
  method AssignRevisions(n: Snap, prev: map<u32, Snap>) returns (r: Option<Snap>)
    ensures r == if Exhausts(prev, n) then None else Some(Assign(prev, n))
    decreases n
  {
    var kids: seq<Snap> := [];
    for i := 0 to |n.children|
      invariant |kids| == i
      invariant forall j :: 0 <= j < i ==> kids[j] == Assign(prev, n.children[j])
      invariant forall j :: 0 <= j < i ==> !Exhausts(prev, n.children[j])
    {
      var child := AssignRevisions(n.children[i], prev);
      if child.None? {
        return None;
      }
      kids := kids + [child.value];
    }
    assert kids == Assign(prev, n).children;
    var t := n.(children := kids);
    if t.id !in prev || prev[t.id].kind != t.kind {
      return Some(t.(revision := 1));
    }
    var previous := prev[t.id];
    var local := !SameLocalData(previous, t);
    t := t.(localChanged := local,
            structureChanged := !SameChildIdentity(previous, t) || (t.kind == NATIVE_SURFACE && local));
    t := t.(changed := !SameNodeData(previous, t));
    if !t.changed {
      return Some(t.(revision := previous.revision));
    }
    if previous.revision >= MAX_U64 {
      return None;
    }
    return Some(t.(revision := previous.revision + 1));
  }
}

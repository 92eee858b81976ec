/** Patch refines replace: writing the changed subtrees at their paths and carrying
    the ancestors' revisions turns the old wire tree into the new one. */
module UiPatch {
  import opened Basics
  import opened Bytecode
  import opened UiTree
  import opened UiDelta

  type Path = seq<nat>

  function RevisionIn(revs: map<u32, nat>, t: WireNode): nat {
    if t.id in revs then revs[t.id] else t.revision
  }

  // The host's path-copying update; None when the path leaves the tree.
  function Replacing(t: WireNode, path: Path, repl: WireNode, revs: map<u32, nat>): Option<WireNode>
    decreases path
  {
    if path == [] then Some(repl)
    else if path[0] >= |t.children| then None
    else
      match Replacing(t.children[path[0]], path[1..], repl, revs)
      case None => None
      case Some(c) =>
        Some(t.(revision := RevisionIn(revs, t), children := t.children[path[0] := c]))
  }

  predicate ValidPath(t: WireNode, path: Path)
    decreases path
  {
    path == [] || (path[0] < |t.children| && ValidPath(t.children[path[0]], path[1..]))
  }

  function At(t: WireNode, path: Path): WireNode
    requires ValidPath(t, path)
    decreases path
  {
    if path == [] then t else At(t.children[path[0]], path[1..])
  }

  // One update per path, each taking its subtree from the goal.
  function PatchAll(t: WireNode, paths: seq<Path>, goal: WireNode, revs: map<u32, nat>): Option<WireNode>
    decreases |paths|
  {
    if paths == [] then Some(t)
    else if !ValidPath(goal, paths[0]) then None
    else
      match Replacing(t, paths[0], At(goal, paths[0]), revs)
      case None => None
      case Some(t') => PatchAll(t', paths[1..], goal, revs)
  }

  // -------- where the changed nodes are --------

  function Prefix(i: nat, paths: seq<Path>): (r: seq<Path>)
    ensures |r| == |paths|
  {
    seq(|paths|, k requires 0 <= k < |paths| => [i] + paths[k])
  }

  // The paths of ChangedNodes, for trees without structural changes.
  function ChangedPaths(t: Snap): seq<Path>
    decreases t, 1
  {
    if t.kind == LIST then (if t.changed then [[]] else [])
    else (if t.localChanged then [[]] else []) + ChangedPathsFrom(t.children, 0)
  }

  function ChangedPathsFrom(ts: seq<Snap>, k: nat): seq<Path>
    requires k <= |ts|
    decreases ts, 0, |ts| - k
  {
    if k == |ts| then [] else Prefix(k, ChangedPaths(ts[k])) + ChangedPathsFrom(ts, k + 1)
  }

  // -------- agreement of the revision table with the goal --------

  ghost predicate RevisionsAgree(revs: map<u32, nat>, t: WireNode)
    decreases t
  {
    && RevisionIn(revs, t) == t.revision
    && forall i :: 0 <= i < |t.children| ==> RevisionsAgree(revs, t.children[i])
  }

  ghost predicate RevisionsCover(revs: map<u32, nat>, t: Snap)
    decreases t
  {
    && (t.changed ==> t.id in revs)
    && (t.kind != LIST ==> forall i :: 0 <= i < |t.children| ==> RevisionsCover(revs, t.children[i]))
  }

  // -------- folding along paths --------

  lemma {:induction false} PatchAppend(t: WireNode, ps: seq<Path>, qs: seq<Path>, goal: WireNode, revs: map<u32, nat>)
    ensures PatchAll(t, ps + qs, goal, revs) ==
      match PatchAll(t, ps, goal, revs) case None => None case Some(u) => PatchAll(u, qs, goal, revs)
    decreases |ps|
  {
    if ps == [] {
      assert ps + qs == qs;
    } else {
      assert (ps + qs)[0] == ps[0] && (ps + qs)[1..] == ps[1..] + qs;
      if ValidPath(goal, ps[0]) {
        match Replacing(t, ps[0], At(goal, ps[0]), revs)
        case None =>
        case Some(u) => PatchAppend(u, ps[1..], qs, goal, revs);
      }
    }
  }

  // A nonempty list of updates below child i acts on that child alone and refreshes
  // the revision of the node itself.
  lemma {:induction false} PatchBelow(t: WireNode, i: nat, ps: seq<Path>, goal: WireNode, revs: map<u32, nat>)
    requires i < |t.children| && i < |goal.children| && ps != []
    requires PatchAll(t.children[i], ps, goal.children[i], revs).Some?
    ensures PatchAll(t, Prefix(i, ps), goal, revs) ==
      Some(t.(revision := RevisionIn(revs, t),
              children := t.children[i := PatchAll(t.children[i], ps, goal.children[i], revs).value]))
    decreases |ps|
  {
    var path := Prefix(i, ps)[0];
    assert path[0] == i && path[1..] == ps[0];
    assert ValidPath(goal, path) && At(goal, path) == At(goal.children[i], ps[0]);
    var c := Replacing(t.children[i], ps[0], At(goal.children[i], ps[0]), revs).value;
    var t' := t.(revision := RevisionIn(revs, t), children := t.children[i := c]);
    assert Replacing(t, path, At(goal, path), revs) == Some(t');
    assert Prefix(i, ps)[1..] == Prefix(i, ps[1..]);
    if ps[1..] == [] {
      assert PatchAll(t', Prefix(i, ps[1..]), goal, revs) == Some(t');
      assert PatchAll(c, ps[1..], goal.children[i], revs) == Some(c);
    } else {
      PatchBelow(t', i, ps[1..], goal, revs);
      var d := PatchAll(c, ps[1..], goal.children[i], revs).value;
      assert t'.children[i := d] == t.children[i := d];
    }
  }

  // -------- updates of an already current tree --------

  lemma {:induction false} ReplacingStable(t: WireNode, path: Path, revs: map<u32, nat>)
    requires RevisionsAgree(revs, t) && ValidPath(t, path)
    ensures Replacing(t, path, At(t, path), revs) == Some(t)
    decreases path
  {
    if path == [] {
    } else {
      var i := path[0];
      ReplacingStable(t.children[i], path[1..], revs);
      assert t.children[i := t.children[i]] == t.children;
    }
  }

  lemma {:induction false} PatchStable(t: WireNode, ps: seq<Path>, revs: map<u32, nat>)
    requires RevisionsAgree(revs, t)
    requires forall k :: 0 <= k < |ps| ==> ValidPath(t, ps[k])
    ensures PatchAll(t, ps, t, revs) == Some(t)
    decreases |ps|
  {
    if ps == [] {
    } else {
      ReplacingStable(t, ps[0], revs);
      PatchStable(t, ps[1..], revs);
    }
  }

  // -------- the paths lead to the changed nodes --------

  lemma {:induction false} PathsLead(t: Snap)
    requires !Structural(t)
    ensures |ChangedPaths(t)| == |ChangedNodes(t)|
    ensures forall k :: 0 <= k < |ChangedPaths(t)| ==>
      && ValidPath(Wire(t), ChangedPaths(t)[k])
      && At(Wire(t), ChangedPaths(t)[k]) == Wire(ChangedNodes(t)[k])
    decreases t, 1
  {
    if t.kind != LIST {
      assert t.children[0..] == t.children;
      PathsLeadFrom(t, 0);
    }
  }

  lemma {:induction false} PathsLeadFrom(t: Snap, i: nat)
    requires !Structural(t) && i <= |t.children|
    ensures var ps, ns := ChangedPathsFrom(t.children, i), ChangedNodesAll(t.children[i..]);
      && |ps| == |ns|
      && forall k :: 0 <= k < |ps| ==> ValidPath(Wire(t), ps[k]) && At(Wire(t), ps[k]) == Wire(ns[k])
    decreases t, 0, |t.children| - i
  {
    if i == |t.children| {
    } else {
      var c := t.children[i];
      assert !Structural(c);
      PathsLead(c);
      PathsLeadFrom(t, i + 1);
      assert t.children[i..][0] == c && t.children[i..][1..] == t.children[i + 1..];
      var own := Prefix(i, ChangedPaths(c));
      forall k | 0 <= k < |own|
        ensures ValidPath(Wire(t), own[k]) && At(Wire(t), own[k]) == Wire(ChangedNodes(c)[k])
      {
        assert own[k][0] == i && own[k][1..] == ChangedPaths(c)[k];
      }
    }
  }

  // -------- unchanged trees need no update --------

  lemma {:induction false} UnchangedIsEmpty(prev: map<u32, Snap>, p: Snap, n: Snap)
    requires Covers(prev, p) && SameTree(p, n)
    ensures ChangedPaths(Assign(prev, n)) == []
    ensures Wire(Assign(prev, n)) == Wire(p)
    decreases p, 1
  {
    RevisionsDecideEquality(prev, p, n);
    UnchangedIsExact(prev, p, n);
    ExactWire(p, Assign(prev, n));
    if n.kind != LIST {
      UnchangedIsEmptyFrom(prev, p, n, 0);
    }
  }

  lemma {:induction false} UnchangedIsEmptyFrom(prev: map<u32, Snap>, p: Snap, n: Snap, k: nat)
    requires Covers(prev, p) && SameTree(p, n) && k <= |n.children|
    ensures ChangedPathsFrom(Assign(prev, n).children, k) == []
    decreases p, 0, |n.children| - k
  {
    if k == |n.children| {
    } else {
      UnchangedIsEmpty(prev, p.children[k], n.children[k]);
      UnchangedIsEmptyFrom(prev, p, n, k + 1);
    }
  }

  // -------- the refinement --------

  lemma {:induction false} PatchRefinesReplace(prev: map<u32, Snap>, p: Snap, n: Snap, revs: map<u32, nat>)
    requires Covers(prev, p) && p.id == n.id && p.kind == n.kind
    requires !Structural(Assign(prev, n))
    requires RevisionsAgree(revs, Wire(Assign(prev, n))) && RevisionsCover(revs, Assign(prev, n))
    ensures PatchAll(Wire(p), ChangedPaths(Assign(prev, n)), Wire(Assign(prev, n)), revs)
         == Some(Wire(Assign(prev, n)))
    ensures ChangedPaths(Assign(prev, n)) == [] <==> !Assign(prev, n).changed
    decreases p, 1
  {
    var a := Assign(prev, n);
    RevisionsDecideEquality(prev, p, n);
    if SameTree(p, n) {
      UnchangedIsEmpty(prev, p, n);
    } else if a.kind == LIST {
      assert ChangedPaths(a) == [[]];
      assert PatchAll(Wire(a), [[]][1..], Wire(a), revs) == Some(Wire(a));
    } else if a.localChanged {
      PathsLead(a);
      PatchStable(Wire(a), ChangedPaths(a)[1..], revs);
    } else {
      Sweep(prev, p, n, revs, 0, Wire(p));
      assert ChangedPaths(a) == ChangedPathsFrom(a.children, 0);
      NonemptyBelow(prev, p, n, revs);
    }
  }

  // Children k.. are still old; the updates from k on bring them up to date.
  lemma {:induction false} Sweep(prev: map<u32, Snap>, p: Snap, n: Snap, revs: map<u32, nat>, k: nat, t: WireNode)
    requires Covers(prev, p) && p.id == n.id && p.kind == n.kind
    requires var a := Assign(prev, n);
      && !Structural(a) && a.kind != LIST
      && RevisionsAgree(revs, Wire(a)) && RevisionsCover(revs, a)
      && k <= |a.children|
      && t.id == a.id && |t.children| == |a.children|
      && (forall i :: 0 <= i < k ==> t.children[i] == Wire(a.children[i]))
      && (forall i :: k <= i < |a.children| ==> t.children[i] == Wire(p.children[i]))
    ensures var a := Assign(prev, n);
      PatchAll(t, ChangedPathsFrom(a.children, k), Wire(a), revs) ==
        Some(t.(children := Wire(a).children,
                revision := if ChangedPathsFrom(a.children, k) == [] then t.revision
                            else RevisionIn(revs, t)))
    decreases p, 0, |n.children| - k
  {
    var a := Assign(prev, n);
    if k == |a.children| {
      assert t.children == Wire(a).children;
    } else {
      ChildFacts(prev, p, n, revs, k);
      var c, d, w := p.children[k], n.children[k], Wire(Assign(prev, n.children[k]));
      assert Wire(a).children[k] == w;
      PatchRefinesReplace(prev, c, d, revs);
      hide Structural, Covers, RevisionsAgree, RevisionsCover, Replacing, PatchAll, ChangedPaths, Assign;
      var own, rest := ChangedPaths(a.children[k]), ChangedPathsFrom(a.children, k + 1);
      PatchChild(t, k, own, rest, Wire(a), revs);
      var t' := Patched(t, k, own, w, revs);
      Sweep(prev, p, n, revs, k + 1, t');
      assert Prefix(k, own) + rest == [] <==> own == [] && rest == [];
    }
  }

  // The node after the updates below its child k, which is now w.
  function Patched(t: WireNode, k: nat, own: seq<Path>, w: WireNode, revs: map<u32, nat>): WireNode
    requires k < |t.children|
  {
    t.(revision := if own == [] then t.revision else RevisionIn(revs, t), children := t.children[k := w])
  }

  lemma {:induction false} PatchChild(t: WireNode, k: nat, own: seq<Path>, rest: seq<Path>, goal: WireNode,
      revs: map<u32, nat>)
    requires k < |t.children| && k < |goal.children|
    requires PatchAll(t.children[k], own, goal.children[k], revs) == Some(goal.children[k])
    ensures PatchAll(t, Prefix(k, own) + rest, goal, revs)
         == PatchAll(Patched(t, k, own, goal.children[k], revs), rest, goal, revs)
  {
    hide Replacing;
    PatchAppend(t, Prefix(k, own), rest, goal, revs);
    if own == [] {
      assert Prefix(k, own) == [];
      assert t.children[k := goal.children[k]] == t.children;
    } else {
      PatchBelow(t, k, own, goal, revs);
    }
  }

  // The premises of the refinement pass from a node to its children.
  lemma {:induction false} ChildFacts(prev: map<u32, Snap>, p: Snap, n: Snap, revs: map<u32, nat>, k: nat)
    requires Covers(prev, p) && p.id == n.id && p.kind == n.kind
    requires var a := Assign(prev, n);
      && !Structural(a) && a.kind != LIST
      && RevisionsAgree(revs, Wire(a)) && RevisionsCover(revs, a)
      && k < |a.children|
    ensures var a, c, d := Assign(prev, n), p.children[k], n.children[k];
      && |p.children| == |n.children| == |a.children|
      && a.children[k] == Assign(prev, d) && !Structural(Assign(prev, d))
      && Covers(prev, c) && c.id == d.id && c.kind == d.kind
      && RevisionsAgree(revs, Wire(Assign(prev, d))) && RevisionsCover(revs, Assign(prev, d))
  {
    var a := Assign(prev, n);
    assert SameChildIdentity(p, a);
    assert a.children[k] == Assign(prev, n.children[k]);
    assert RevisionsAgree(revs, Wire(a).children[k]);
  }

  // A node that changed without a local change has an update below it.
  lemma {:induction false} NonemptyBelow(prev: map<u32, Snap>, p: Snap, n: Snap, revs: map<u32, nat>)
    requires Covers(prev, p) && p.id == n.id && p.kind == n.kind && !SameTree(p, n)
    requires var a := Assign(prev, n);
      && !Structural(a) && !a.localChanged && a.kind != LIST
      && RevisionsAgree(revs, Wire(a)) && RevisionsCover(revs, a)
    ensures ChangedPathsFrom(Assign(prev, n).children, 0) != []
    decreases p, 0, |n.children| + 1
  {
    var a := Assign(prev, n);
    RevisionsDecideEquality(prev, p, n);
    assert SameChildIdentity(p, a) && SameLocalData(p, a);
    var i :| 0 <= i < |p.children| && p.children[i].revision != a.children[i].revision;
    assert a.children[i] == Assign(prev, n.children[i]) && !Structural(a.children[i]);
    RevisionsDecideEquality(prev, p.children[i], n.children[i]);
    assert RevisionsAgree(revs, Wire(a).children[i]);
    PatchRefinesReplace(prev, p.children[i], n.children[i], revs);
    FromNonempty(a.children, 0, i);
  }

  lemma {:induction false} FromNonempty(ts: seq<Snap>, k: nat, i: nat)
    requires k <= i < |ts| && ChangedPaths(ts[i]) != []
    ensures ChangedPathsFrom(ts, k) != []
    decreases i - k
  {
    if k < i {
      FromNonempty(ts, k + 1, i);
    } else {
      assert |Prefix(k, ChangedPaths(ts[k]))| > 0;
    }
  }
}

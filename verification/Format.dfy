/** UI nodes in a PVBC payload: printing trees, parsing them, and the proof that the two
    are inverse both ways. */
module Format {
  import opened Basics
  import opened ByteCodec
  import opened Codecs
  import opened Bytecode
  import opened Elements

  const RUNTIME_VERSION := 5
  const PVBC: Bytes := [80, 86, 66, 67]

  // -------- UI trees --------

  datatype Local = Local(kind: NodeType, id: u32, properties: seq<PropertyExpression>, events: seq<EventBinding>)

  function LocalOf(n: UiNode): Local {
    Local(n.kind, n.id, n.properties, n.events)
  }

  // What read_node checks about a node before its children.
  ghost predicate LocalOk(m: Module, l: Local) {
    LocalNodeOk(m, UiNode(l.kind, l.id, l.properties, l.events, []))
  }

  ghost function RawLocalC(m: Module): Codec<Local> {
    Via(Both(NodeTypeC(), Both(U32C(), Both(Counted(Count16(), PropertyC(m)), Counted(Count16(), BindingC())))),
        (x: (NodeType, (u32, (seq<PropertyExpression>, seq<EventBinding>)))) => Local(x.0, x.1.0, x.1.1.0, x.1.1.1),
        (l: Local) => (l.kind, (l.id, (l.properties, l.events))))
  }

  ghost function LocalC(m: Module): Codec<Local> {
    Only(RawLocalC(m), (l: Local) => LocalOk(m, l))
  }

  lemma {:induction false} LocalLawful(m: Module)
    ensures Lawful(LocalC(m))
  {
    NodeTypeLawful();
    U32Lawful();
    Count16Lawful();
    PartsLawful(m);
    hide NodeTypeC, U32C, Count16, PropertyC, BindingC, Lawful, Counted, Both, LocalOk;
    var ps, bs := Counted(Count16(), PropertyC(m)), Counted(Count16(), BindingC());
    CountedLawful(Count16(), PropertyC(m));
    CountedLawful(Count16(), BindingC());
    BothLawful(ps, bs);
    BothLawful(U32C(), Both(ps, bs));
    BothLawful(NodeTypeC(), Both(U32C(), Both(ps, bs)));
    ViaLawful(Both(NodeTypeC(), Both(U32C(), Both(ps, bs))),
              (x: (NodeType, (u32, (seq<PropertyExpression>, seq<EventBinding>)))) => Local(x.0, x.1.0, x.1.1.0, x.1.1.1),
              (l: Local) => (l.kind, (l.id, (l.properties, l.events))));
    OnlyLawful(RawLocalC(m), (l: Local) => LocalOk(m, l));
  }

  ghost function PutNode(m: Module, n: UiNode): Bytes
    decreases n, 1
  {
    LocalC(m).put(LocalOf(n)) + (Put16(|n.children| % 0x1_0000) + PutNodes(m, n.children))
  }

  ghost function PutNodes(m: Module, ns: seq<UiNode>): Bytes
    decreases ns, 0
  {
    if ns == [] then [] else PutNode(m, ns[0]) + PutNodes(m, ns[1..])
  }

  // A node at most d levels deep.
  ghost function GetNode(m: Module, d: nat, b: Bytes): Parsed<UiNode>
    decreases d, 0, 0
  {
    if d == 0 then Fail
    else
      match LocalC(m).get(b)
      case Fail => Fail
      case Done(l, b1) =>
        match Get16(b1)
        case Fail => Fail
        case Done(n, b2) =>
          match GetNodes(m, d - 1, n, b2)
          case Fail => Fail
          case Done(kids, r) => Done(UiNode(l.kind, l.id, l.properties, l.events, kids), r)
  }

  ghost function GetNodes(m: Module, d: nat, n: nat, b: Bytes): Parsed<seq<UiNode>>
    decreases d, 1, n
  {
    if n == 0 then Done([], b)
    else
      match GetNode(m, d, b)
      case Fail => Fail
      case Done(x, rest) =>
        match GetNodes(m, d, n - 1, rest)
        case Fail => Fail
        case Done(xs, r) => Done([x] + xs, r)
  }

  // What the parser knows of a node: its own checks, its children's, and its depth.
  ghost predicate NodeFits(m: Module, d: nat, n: UiNode)
    decreases n
  {
    && d > 0 && LocalOk(m, LocalOf(n)) && |n.children| <= MAX_U16
    && forall i :: 0 <= i < |n.children| ==> NodeFits(m, d - 1, n.children[i])
  }

  lemma {:induction false} NodePutGet(m: Module, d: nat, n: UiNode, r: Bytes)
    requires NodeFits(m, d, n)
    ensures GetNode(m, d, PutNode(m, n) + r) == Done(n, r)
    decreases n, 1
  {
    LocalLawful(m);
    hide LocalC, Get16, Put16, LocalOk;
    var kids := n.children;
    var b2 := PutNodes(m, kids) + r;
    var b1 := Put16(|kids|) + b2;
    var l := LocalOf(n);
    assert LocalC(m).ok(l) by { LocalAccepts(m, l); }
    assert PutNode(m, n) + r == LocalC(m).put(l) + b1;
    Codec16(|kids|, b2, []);
    NodesPutGet(m, d - 1, kids, r);
  }

  lemma {:induction false} NodesPutGet(m: Module, d: nat, ns: seq<UiNode>, r: Bytes)
    requires forall i :: 0 <= i < |ns| ==> NodeFits(m, d, ns[i])
    ensures GetNodes(m, d, |ns|, PutNodes(m, ns) + r) == Done(ns, r)
    decreases ns, 0
  {
    hide GetNode, PutNode;
    if ns == [] {
    } else {
      var rest := PutNodes(m, ns[1..]) + r;
      assert PutNodes(m, ns) + r == PutNode(m, ns[0]) + rest;
      NodePutGet(m, d, ns[0], rest);
      NodesPutGet(m, d, ns[1..], r);
      assert [ns[0]] + ns[1..] == ns;
    }
  }

  lemma {:induction false} NodeGetPut(m: Module, d: nat, b: Bytes)
    requires GetNode(m, d, b).Done?
    ensures NodeFits(m, d, GetNode(m, d, b).value)
    ensures b == PutNode(m, GetNode(m, d, b).value) + GetNode(m, d, b).rest
    decreases d, 0, 0
  {
    LocalLawful(m);
    hide LocalC, Get16, Put16, LocalOk;
    var l, b1 := LocalC(m).get(b).value, LocalC(m).get(b).rest;
    var n, b2 := Get16(b1).value, Get16(b1).rest;
    Codec16(0, [], b1);
    NodesGetPut(m, d - 1, n, b2);
    var kids, r := GetNodes(m, d - 1, n, b2).value, GetNodes(m, d - 1, n, b2).rest;
    var x := UiNode(l.kind, l.id, l.properties, l.events, kids);
    assert LocalOf(x) == l;
    LocalAccepts(m, l);
    assert |kids| % 0x1_0000 == n;
    assert b == LocalC(m).put(l) + (Put16(n) + (PutNodes(m, kids) + r));
    assert b == PutNode(m, x) + r;
  }

  lemma {:induction false} LocalAccepts(m: Module, l: Local)
    ensures LocalC(m).ok(l) <==> LocalOk(m, l)
  {
    if LocalOk(m, l) {
      assert AllOk(PropertyC(m), l.properties) by {
        forall i | 0 <= i < |l.properties| ensures PropertyC(m).ok(l.properties[i]) {
          PropertyAccepts(m, l.properties[i]);
        }
      }
      assert AllOk(BindingC(), l.events);
      hide AllOk, PropertyC, BindingC;
      assert Counted(Count16(), PropertyC(m)).ok(l.properties);
      assert Counted(Count16(), BindingC()).ok(l.events);
    }
  }

  lemma {:induction false} PropertyAccepts(m: Module, p: PropertyExpression)
    requires PropertyOk(m, p)
    ensures PropertyC(m).ok(p)
  {
    assert AllOk(SegmentC(m), p.segments);
  }

  lemma {:induction false} NodesGetPut(m: Module, d: nat, n: nat, b: Bytes)
    requires GetNodes(m, d, n, b).Done?
    ensures var ns := GetNodes(m, d, n, b).value;
      && |ns| == n
      && (forall i :: 0 <= i < |ns| ==> NodeFits(m, d, ns[i]))
      && b == PutNodes(m, ns) + GetNodes(m, d, n, b).rest
    decreases d, 1, n
  {
    hide GetNode, PutNode;
    if n == 0 {
    } else {
      var x, rest := GetNode(m, d, b).value, GetNode(m, d, b).rest;
      NodeGetPut(m, d, b);
      NodesGetPut(m, d, n - 1, rest);
      var xs, r := GetNodes(m, d, n - 1, rest).value, GetNodes(m, d, n - 1, rest).rest;
      assert ([x] + xs)[1..] == xs;
      assert b == PutNode(m, x) + (PutNodes(m, xs) + r);
    }
  }
}

/** The compiler's writer: a growing byte array and the loops that print instructions,
    nodes and tables into it, each proved to append exactly the printed form. */
module Writers {
  import opened Basics
  import opened ByteCodec
  import opened Codecs
  import opened Bytecode
  import opened Elements
  import opened Format
  import opened Payload

  // The dictionary of a constant pool: every string of the pool under its index.
  ghost predicate IdsOf(pool: seq<Bytes>, ids: map<Bytes, u16>) {
    && Distinct(pool)
    && (forall s :: s in ids <==> s in pool)
    && forall s :: s in ids ==> ids[s] < |pool| && pool[ids[s]] == s
  }

  lemma {:induction false} IdIsIndex(pool: seq<Bytes>, ids: map<Bytes, u16>, s: Bytes)
    requires IdsOf(pool, ids) && s in ids
    ensures ids[s] == IndexOf(pool, s)
  {
    IndexRecovered(pool, ids[s]);
  }

  lemma {:induction false} PutAllSnoc<T>(c: Codec<T>, xs: seq<T>, i: nat)
    requires i < |xs|
    ensures PutAll(c, xs[..i + 1]) == PutAll(c, xs[..i]) + c.put(xs[i])
    decreases i
  {
    if i == 0 {
      assert xs[..1][1..] == [];
    } else {
      PutAllSnoc(c, xs[1..], i - 1);
      assert xs[..i + 1][1..] == xs[1..][..i] && xs[..i][1..] == xs[1..][..i - 1];
    }
  }

  // Every count of the node fits the two bytes it is written in.
  predicate Countable(n: UiNode)
    decreases n
  {
    && |n.properties| <= MAX_U16 && |n.events| <= MAX_U16 && |n.children| <= MAX_U16
    && (forall i | 0 <= i < |n.properties| :: |n.properties[i].segments| <= MAX_U16)
    && forall i | 0 <= i < |n.children| :: Countable(n.children[i])
  }

  class Writer {
    var data: Bytes

    constructor ()
      ensures data == []
    {
      data := [];
    }

    method U8(x: u8)
      modifies this
      ensures data == old(data) + [x]
    {
      data := data + [x];
    }

    method U16(x: u16)
      modifies this
      ensures data == old(data) + Put16(x)
    {
      data := data + [x % 256, x / 256];
    }

    method U32(x: u32)
      modifies this
      ensures data == old(data) + Put32(x)
    {
      data := data + (Put16(x % 0x1_0000) + Put16(x / 0x1_0000));
    }

    method U64(x: u64)
      modifies this
      ensures data == old(data) + Put64(x)
    {
      data := data + (Put32(x % 0x1_0000_0000) + Put32(x / 0x1_0000_0000));
    }

    method I64(i: i64)
      modifies this
      ensures data == old(data) + PutI64(i)
    {
      U64(Bits(i));
    }

    // Texts longer than a u16 can count are refused.
    method Text(s: Bytes) returns (ok: bool)
      modifies this
      ensures ok <==> Short(s)
      ensures data == old(data) + (if ok then PutText(s) else [])
    {
      if |s| > MAX_U16 {
        return false;
      }
      U16(|s|);
      data := data + s;
      ok := true;
    }

    method TextList(values: seq<Bytes>) returns (ok: bool)
      modifies this
      ensures ok <==> |values| <= MAX_U16 && AllShort(values)
      ensures ok ==> data == old(data) + TextTable().put(values)
    {
      TablePut(values);
      hide PutText, Put16, TextTable, PutAll;
      if |values| > MAX_U16 {
        return false;
      }
      NoTexts(values);
      U16(|values|);
      for i := 0 to |values|
        invariant data == old(data) + (Put16(|values|) + PutAll(TextC(), values[..i]))
        invariant forall k :: 0 <= k < i ==> Short(values[k])
      {
        ghost var before := data;
        var short := Text(values[i]);
        if !short {
          return false;
        }
        PutAllSnoc(TextC(), values, i);
      }
      assert values[..|values|] == values;
      ok := true;
    }

    // -------- values and instructions --------

    method Typed(pool: seq<Bytes>, ids: map<Bytes, u16>, v: Value)
      requires IdsOf(pool, ids) && (v.StringValue? ==> v.s in pool)
      modifies this
      ensures data == old(data) + PutTyped(pool, v)
    {
      hide PutI64, Put16, IdsOf, IndexOf;
      match v
      case IntValue(i) =>
        U8(1);
        I64(i);
      case BoolValue(b) =>
        U8(2);
        U8(if b then 1 else 0);
      case StringValue(s) =>
        PoolHolds(pool, ids, s);
        U8(3);
        U16(ids[s]);
    }

    lemma {:induction false} PoolHolds(pool: seq<Bytes>, ids: map<Bytes, u16>, s: Bytes)
      requires IdsOf(pool, ids) && s in pool
      ensures s in ids && ids[s] == IndexOf(pool, s) == IndexOf(pool, s) % 0x1_0000
    {
      IdIsIndex(pool, ids, s);
    }

    method WriteInstruction(m: Module, ids: map<Bytes, u16>, i: Instruction)
      requires IdsOf(m.constants, ids) && OperandsOk(m, i)
      modifies this
      ensures data == old(data) + PutInstruction(m, i)
    {
      hide Put16, Put32, PutTyped, IdsOf;
      U8(Opcode(i));
      match i
      case Constant(v) => Typed(m.constants, ids, v);
      case StateGet(slot) => U16(slot);
      case StateSet(slot) => U16(slot);
      case Render(page) => U16(page);
      case Jump(t) => U32(t);
      case JumpIfFalse(t) => U32(t);
      case Effect(c, o, n) => WriteEffect(c, o, n);
      case AsyncEffect(c, o, n) => WriteEffect(c, o, n);
      case _ =>
    }

    method WriteEffect(c: u16, o: u16, n: u8)
      modifies this
      ensures data == old(data) + PutEffect(c, o, n)
    {
      hide Put16;
      U16(c);
      U16(o);
      U8(n);
    }

    method WriteHandler(m: Module, ids: map<Bytes, u16>, code: Code) returns (ok: bool)
      requires IdsOf(m.constants, ids) && forall k :: 0 <= k < |code| ==> OperandsOk(m, code[k])
      modifies this
      ensures ok <==> |code| <= MAX_U32
      ensures ok ==> data == old(data) + CodeC(m).put(code)
    {
      hide Put32, PutInstruction, OperandsOk, IdsOf;
      if |code| > MAX_U32 {
        return false;
      }
      U32(|code|);
      for k := 0 to |code|
        invariant data == old(data) + (Put32(|code|) + PutAll(InstructionC(m), code[..k]))
      {
        WriteInstruction(m, ids, code[k]);
        PutAllSnoc(InstructionC(m), code, k);
      }
      assert code[..|code|] == code;
      ok := true;
    }

    method WriteHandlers(m: Module, ids: map<Bytes, u16>, handlers: seq<Code>) returns (ok: bool)
      requires IdsOf(m.constants, ids)
      requires forall h, k :: 0 <= h < |handlers| && 0 <= k < |handlers[h]| ==> OperandsOk(m, handlers[h][k])
      modifies this
      ensures ok <==> |handlers| <= MAX_U16 && forall h :: 0 <= h < |handlers| ==> |handlers[h]| <= MAX_U32
      ensures ok ==> data == old(data) + HandlersC(m).put(handlers)
    {
      hide Put16, CodeC, OperandsOk, IdsOf;
      if |handlers| > MAX_U16 {
        return false;
      }
      U16(|handlers|);
      for h := 0 to |handlers|
        invariant data == old(data) + (Put16(|handlers|) + PutAll(CodeC(m), handlers[..h]))
        invariant forall k :: 0 <= k < h ==> |handlers[k]| <= MAX_U32
      {
        var written := WriteHandler(m, ids, handlers[h]);
        if !written {
          return false;
        }
        PutAllSnoc(CodeC(m), handlers, h);
      }
      assert handlers[..|handlers|] == handlers;
      ok := true;
    }

    // -------- nodes --------

    method WriteSegment(s: Segment)
      modifies this
      ensures data == old(data) + PutSegment(s)
    {
      hide Put16;
      U8(if s.ConstantText? then 1 else 2);
      U16(s.index);
    }

    method WriteSegments(ghost m: Module, gs: seq<Segment>) returns (ok: bool)
      modifies this
      ensures ok <==> |gs| <= MAX_U16
      ensures ok ==> data == old(data) + Counted(Count16(), SegmentC(m)).put(gs)
    {
      hide Put16, PutSegment, Counted;
      if |gs| > MAX_U16 {
        return false;
      }
      CountedPut(SegmentC(m), gs);
      U16(|gs|);
      for j := 0 to |gs|
        invariant data == old(data) + (Put16(|gs|) + PutAll(SegmentC(m), gs[..j]))
      {
        WriteSegment(gs[j]);
        PutAllSnoc(SegmentC(m), gs, j);
      }
      assert gs[..|gs|] == gs;
      ok := true;
    }

    method WriteProperty(ghost m: Module, p: PropertyExpression) returns (ok: bool)
      modifies this
      ensures ok <==> |p.segments| <= MAX_U16
      ensures ok ==> data == old(data) + PropertyC(m).put(p)
    {
      PropertyPut(m, p);
      hide Counted, PropertyC;
      U8(p.key);
      ok := WriteSegments(m, p.segments);
    }

    method WriteProperties(ghost m: Module, ps: seq<PropertyExpression>) returns (ok: bool)
      modifies this
      ensures ok <==> |ps| <= MAX_U16 && forall i :: 0 <= i < |ps| ==> |ps[i].segments| <= MAX_U16
      ensures ok ==> data == old(data) + Counted(Count16(), PropertyC(m)).put(ps)
    {
      hide Put16, PropertyC;
      if |ps| > MAX_U16 {
        return false;
      }
      U16(|ps|);
      for i := 0 to |ps|
        invariant data == old(data) + (Put16(|ps|) + PutAll(PropertyC(m), ps[..i]))
        invariant forall k :: 0 <= k < i ==> |ps[k].segments| <= MAX_U16
      {
        var written := WriteProperty(m, ps[i]);
        if !written {
          return false;
        }
        PutAllSnoc(PropertyC(m), ps, i);
      }
      assert ps[..|ps|] == ps;
      ok := true;
    }

    method WriteEvents(es: seq<EventBinding>) returns (ok: bool)
      modifies this
      ensures ok <==> |es| <= MAX_U16
      ensures ok ==> data == old(data) + Counted(Count16(), BindingC()).put(es)
    {
      hide Put16, BindingC, Counted;
      if |es| > MAX_U16 {
        return false;
      }
      CountedPut(BindingC(), es);
      U16(|es|);
      for i := 0 to |es|
        invariant data == old(data) + (Put16(|es|) + PutAll(BindingC(), es[..i]))
      {
        BindingPut(es[i]);
        U8(es[i].event);
        U16(es[i].handler);
        PutAllSnoc(BindingC(), es, i);
      }
      assert es[..|es|] == es;
      ok := true;
    }

    method WriteNode(ghost m: Module, n: UiNode) returns (ok: bool)
      modifies this
      ensures ok <==> Countable(n)
      ensures ok ==> data == old(data) + PutNode(m, n)
      decreases n, 1
    {
      LocalPut(m, n);
      hide Put16, Put32, PropertyC, BindingC, Counted, PutNodes, LocalC;
      U8(n.kind);
      U32(n.id);
      var properties := WriteProperties(m, n.properties);
      if !properties {
        return false;
      }
      var events := WriteEvents(n.events);
      if !events || |n.children| > MAX_U16 {
        return false;
      }
      U16(|n.children|);
      ok := WriteNodes(m, n.children);
    }

    // The loop over a node's children, and the one over the pages.
    method WriteNodes(ghost m: Module, ns: seq<UiNode>) returns (ok: bool)
      modifies this
      ensures ok <==> forall i :: 0 <= i < |ns| ==> Countable(ns[i])
      ensures ok ==> data == old(data) + PutNodes(m, ns)
      decreases ns, 0
    {
      hide PutNode, Countable;
      for i := 0 to |ns|
        invariant data == old(data) + PutNodes(m, ns[..i])
        invariant forall k :: 0 <= k < i ==> Countable(ns[k])
      {
        var written := WriteNode(m, ns[i]);
        if !written {
          return false;
        }
        NodesSnoc(m, ns, i);
      }
      assert ns[..|ns|] == ns;
      ok := true;
    }
  }

  lemma {:induction false} TablePut(values: seq<Bytes>)
    ensures |values| <= MAX_U16 ==> TextTable().put(values) == Put16(|values|) + PutAll(TextC(), values)
  {
    hide Put16, PutAll;
  }

  lemma {:induction false} NoTexts(values: seq<Bytes>)
    ensures PutAll(TextC(), values[..0]) == []
  {
  }

  lemma {:induction false} CountedPut<T>(c: Codec<T>, xs: seq<T>)
    requires |xs| <= MAX_U16
    ensures Counted(Count16(), c).put(xs) == Put16(|xs|) + PutAll(c, xs)
  {
    hide Put16, PutAll;
  }

  lemma {:induction false} BindingPut(e: EventBinding)
    ensures BindingC().put(e) == [e.event] + Put16(e.handler)
  {
    hide Put16;
  }

  lemma {:induction false} PropertyPut(m: Module, p: PropertyExpression)
    ensures PropertyC(m).put(p) == [p.key] + Counted(Count16(), SegmentC(m)).put(p.segments)
  {
    hide Counted, SegmentC;
  }

  lemma {:induction false} NodesSnoc(m: Module, ns: seq<UiNode>, i: nat)
    requires i < |ns|
    ensures PutNodes(m, ns[..i + 1]) == PutNodes(m, ns[..i]) + PutNode(m, ns[i])
    decreases i
  {
    hide PutNode;
    if i == 0 {
      assert ns[..1][1..] == [];
    } else {
      NodesSnoc(m, ns[1..], i - 1);
      assert ns[..i + 1][1..] == ns[1..][..i] && ns[..i][1..] == ns[1..][..i - 1];
    }
  }

  lemma {:induction false} LocalPut(m: Module, n: UiNode)
    ensures LocalC(m).put(LocalOf(n)) ==
      [n.kind] + (Put32(n.id)
        + (Counted(Count16(), PropertyC(m)).put(n.properties) + Counted(Count16(), BindingC()).put(n.events)))
  {
    hide Put32, Counted, PropertyC, BindingC;
  }
}

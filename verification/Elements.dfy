/** The elements of a payload: values, instructions and UI nodes, each printed and
    parsed under the tables of the module they belong to. */
module Elements {
  import opened Basics
  import opened ByteCodec
  import opened Codecs
  import opened Bytecode

  // -------- strings are constant-pool indices --------

  function IndexOf(pool: seq<Bytes>, s: Bytes): (r: nat)
    ensures r <= |pool|
    ensures s in pool ==> r < |pool| && pool[r] == s
    decreases |pool|
  {
    if pool == [] then 0 else if pool[0] == s then 0 else 1 + IndexOf(pool[1..], s)
  }

  // Uniqueness of the pool makes the index recoverable from the string.
  lemma {:induction false} IndexRecovered(pool: seq<Bytes>, i: nat)
    requires Distinct(pool) && i < |pool|
    ensures IndexOf(pool, pool[i]) == i
  {
    assert pool[i] in pool;
    var r := IndexOf(pool, pool[i]);
    assert pool[r] == pool[i];
  }

  // A string keeps its index while the pool grows at its end.
  lemma {:induction false} IndexStays(pool: seq<Bytes>, larger: seq<Bytes>, s: Bytes)
    requires pool <= larger && s in pool
    ensures s in larger && IndexOf(larger, s) == IndexOf(pool, s)
  {
    assert larger[0] == pool[0];
    if pool[0] != s {
      IndexStays(pool[1..], larger[1..], s);
    }
  }

  // The pool can be indexed by a u16.
  ghost predicate PoolOk(pool: seq<Bytes>) {
    |pool| <= MAX_U16 && Distinct(pool)
  }

  // -------- typed values --------

  function PutTyped(pool: seq<Bytes>, v: Value): Bytes {
    match v
    case IntValue(i) => [1] + PutI64(i)
    case BoolValue(b) => [2, if b then 1 else 0]
    case StringValue(s) => [3] + Put16(IndexOf(pool, s) % 0x1_0000)
  }

  function GetTyped(pool: seq<Bytes>, b: Bytes): Parsed<Value> {
    match Get8(b)
    case Fail => Fail
    case Done(tag, rest) =>
      if tag == 1 then
        match GetI64(rest) case Fail => Fail case Done(i, r) => Done(IntValue(i), r)
      else if tag == 2 then
        match Get8(rest)
        case Fail => Fail
        case Done(raw, r) => if raw > 1 then Fail else Done(BoolValue(raw == 1), r)
      else if tag == 3 then
        match Get16(rest)
        case Fail => Fail
        case Done(i, r) => if i >= |pool| then Fail else Done(StringValue(pool[i]), r)
      else Fail
  }

  function TypedC(pool: seq<Bytes>): Codec<Value> {
    Codec((v: Value) => PutTyped(pool, v), b => GetTyped(pool, b), (v: Value) => v.StringValue? ==> v.s in pool)
  }

  lemma {:induction false} TypedPutGet(pool: seq<Bytes>, v: Value, r: Bytes)
    requires PoolOk(pool) && (v.StringValue? ==> v.s in pool)
    ensures GetTyped(pool, PutTyped(pool, v) + r) == Done(v, r)
  {
    hide Put16, Get16, PutI64, GetI64;
    var b := PutTyped(pool, v) + r;
    match v
    case IntValue(i) =>
      CodecI64(i, r, []);
      assert b[1..] == PutI64(i) + r;
    case BoolValue(x) =>
      assert b[1..] == [if x then 1 else 0] + r;
    case StringValue(s) =>
      var i: u16 := IndexOf(pool, s);
      Codec16(i, r, []);
      assert i % 0x1_0000 == i && b[1..] == Put16(i) + r;
  }

  lemma {:induction false} TypedGetPut(pool: seq<Bytes>, b: Bytes)
    requires PoolOk(pool) && GetTyped(pool, b).Done?
    ensures var v := GetTyped(pool, b).value;
      (v.StringValue? ==> v.s in pool) && b == PutTyped(pool, v) + GetTyped(pool, b).rest
  {
    hide Put16, Get16, PutI64, GetI64, IndexOf;
    var rest := b[1..];
    assert b == [b[0]] + rest;
    if b[0] == 1 {
      CodecI64(0, [], rest);
    } else if b[0] == 2 {
      assert rest == [rest[0]] + rest[1..];
    } else {
      Codec16(0, [], rest);
      IndexRecovered(pool, Get16(rest).value);
    }
  }

  lemma {:induction false} TypedLawful(pool: seq<Bytes>)
    requires PoolOk(pool)
    ensures Lawful(TypedC(pool))
  {
    hide PutTyped, GetTyped;
    forall v: Value, r: Bytes | v.StringValue? ==> v.s in pool
      ensures GetTyped(pool, PutTyped(pool, v) + r) == Done(v, r)
    {
      TypedPutGet(pool, v, r);
    }
    forall b: Bytes | GetTyped(pool, b).Done?
      ensures (GetTyped(pool, b).value.StringValue? ==> GetTyped(pool, b).value.s in pool)
           && b == PutTyped(pool, GetTyped(pool, b).value) + GetTyped(pool, b).rest
    {
      TypedGetPut(pool, b);
    }
  }

  // -------- instructions --------

  function PutEffect(c: u16, o: u16, n: u8): Bytes {
    Put16(c) + (Put16(o) + [n])
  }

  function Opcode(i: Instruction): u8 {
    match i
    case Constant(_) => 1
    case StateGet(_) => 4
    case StateSet(_) => 5
    case IntegerAdd => 6
    case Equal => 7
    case Jump(_) => 8
    case JumpIfFalse(_) => 9
    case Effect(_, _, _) => 10
    case Pop => 11
    case Render(_) => 12
    case Halt => 13
    case AsyncEffect(_, _, _) => 14
    case EventValue => 15
  }

  function PutOperands(m: Module, i: Instruction): Bytes {
    match i
    case Constant(v) => PutTyped(m.constants, v)
    case StateGet(slot) => Put16(slot)
    case StateSet(slot) => Put16(slot)
    case Jump(t) => Put32(t)
    case JumpIfFalse(t) => Put32(t)
    case Effect(c, o, n) => PutEffect(c, o, n)
    case Render(page) => Put16(page)
    case AsyncEffect(c, o, n) => PutEffect(c, o, n)
    case _ => []
  }

  function PutInstruction(m: Module, i: Instruction): Bytes {
    [Opcode(i)] + PutOperands(m, i)
  }

  datatype EffectOperands = EffectOperands(capability: u16, operation: u16, arity: u8)

  function GetEffect(b: Bytes): Parsed<EffectOperands> {
    match Get16(b)
    case Fail => Fail
    case Done(c, b1) =>
      match Get16(b1)
      case Fail => Fail
      case Done(o, b2) =>
        match Get8(b2) case Fail => Fail case Done(n, r) => Done(EffectOperands(c, o, n), r)
  }

  function MaximumOp(format: u16): u8 {
    if format >= 5 then 15 else if format >= 2 then 14 else 13
  }

  // The operands that follow opcode op.
  function GetOperands(m: Module, op: u8, b: Bytes): Parsed<Instruction> {
    if op == 1 then
      match GetTyped(m.constants, b) case Fail => Fail case Done(v, r) => Done(Constant(v), r)
    else if op == 4 || op == 5 || op == 12 then
      match Get16(b)
      case Fail => Fail
      case Done(x, r) => Done(if op == 4 then StateGet(x) else if op == 5 then StateSet(x) else Render(x), r)
    else if op == 8 || op == 9 then
      match Get32(b)
      case Fail => Fail
      case Done(t, r) => Done(if op == 8 then Jump(t) else JumpIfFalse(t), r)
    else if op == 10 || op == 14 then
      match GetEffect(b)
      case Fail => Fail
      case Done(e, r) =>
        Done(if op == 10 then Effect(e.capability, e.operation, e.arity)
             else AsyncEffect(e.capability, e.operation, e.arity), r)
    else if op == 6 then Done(IntegerAdd, b)
    else if op == 7 then Done(Equal, b)
    else if op == 11 then Done(Pop, b)
    else if op == 13 then Done(Halt, b)
    else if op == 15 then Done(EventValue, b)
    else Fail
  }

  function GetInstruction(m: Module, b: Bytes): Parsed<Instruction> {
    match Get8(b)
    case Fail => Fail
    case Done(op, rest) =>
      if op != 1 && (op < 4 || op > MaximumOp(m.format)) then Fail
      else
        match GetOperands(m, op, rest)
        case Fail => Fail
        case Done(i, r) => if OperandsOk(m, i) then Done(i, r) else Fail
  }

  function InstructionC(m: Module): Codec<Instruction> {
    Codec((i: Instruction) => PutInstruction(m, i), b => GetInstruction(m, b), (i: Instruction) => OperandsOk(m, i))
  }

  lemma {:induction false} EffectCodec(c: u16, o: u16, n: u8, r: Bytes, b: Bytes)
    ensures GetEffect(PutEffect(c, o, n) + r) == Done(EffectOperands(c, o, n), r)
    ensures GetEffect(b).Done? ==>
      var e := GetEffect(b).value; b == PutEffect(e.capability, e.operation, e.arity) + GetEffect(b).rest
  {
    hide Put16, Get16;
    var b2 := [n] + r;
    var b1 := Put16(o) + b2;
    assert PutEffect(c, o, n) + r == Put16(c) + b1;
    Codec16(c, b1, b);
    Codec16(o, b2, if Get16(b).Done? then Get16(b).rest else []);
    assert b2[1..] == r;
    if GetEffect(b).Done? {
      var x := Get16(b).rest;
      var y := Get16(x).rest;
      assert y == [y[0]] + y[1..];
    }
  }

  lemma {:induction false} OperandsPutGet(m: Module, i: Instruction, r: Bytes)
    requires PoolOk(m.constants) && OperandsOk(m, i)
    ensures GetOperands(m, Opcode(i), PutOperands(m, i) + r) == Done(i, r)
  {
    hide Put16, Get16, Put32, Get32, PutTyped, GetTyped, PutEffect, GetEffect;
    match i
    case Constant(v) => TypedPutGet(m.constants, v, r);
    case StateGet(x) => Codec16(x, r, []);
    case StateSet(x) => Codec16(x, r, []);
    case Render(x) => Codec16(x, r, []);
    case Jump(t) => Codec32(t, r, []);
    case JumpIfFalse(t) => Codec32(t, r, []);
    case Effect(c, o, n) => EffectCodec(c, o, n, r, []);
    case AsyncEffect(c, o, n) => EffectCodec(c, o, n, r, []);
    case _ => assert [] + r == r;
  }

  lemma {:induction false} OpcodeKnown(m: Module, i: Instruction)
    requires OperandsOk(m, i)
    ensures Opcode(i) == 1 || 4 <= Opcode(i) <= MaximumOp(m.format)
  {
  }

  lemma {:induction false} InstructionPutGet(m: Module, i: Instruction, r: Bytes)
    requires PoolOk(m.constants) && OperandsOk(m, i)
    ensures GetInstruction(m, PutInstruction(m, i) + r) == Done(i, r)
  {
    hide PutOperands, GetOperands, Opcode, OperandsOk, PoolOk, MaximumOp;
    OperandsPutGet(m, i, r);
    OpcodeKnown(m, i);
    var b := PutInstruction(m, i) + r;
    assert b[0] == Opcode(i) && b[1..] == PutOperands(m, i) + r;
  }

  lemma {:induction false} OperandsGetPut(m: Module, op: u8, b: Bytes)
    requires PoolOk(m.constants) && GetOperands(m, op, b).Done?
    ensures var i := GetOperands(m, op, b).value;
      Opcode(i) == op && b == PutOperands(m, i) + GetOperands(m, op, b).rest
  {
    hide Put16, Get16, Put32, Get32, PutTyped, GetTyped, PutEffect, GetEffect;
    if op == 1 {
      TypedGetPut(m.constants, b);
    } else if op == 4 || op == 5 || op == 12 {
      Codec16(0, [], b);
    } else if op == 8 || op == 9 {
      Codec32(0, [], b);
    } else if op == 10 || op == 14 {
      EffectCodec(0, 0, 0, [], b);
    }
  }

  lemma {:induction false} InstructionGetPut(m: Module, b: Bytes)
    requires PoolOk(m.constants) && GetInstruction(m, b).Done?
    ensures OperandsOk(m, GetInstruction(m, b).value)
    ensures b == PutInstruction(m, GetInstruction(m, b).value) + GetInstruction(m, b).rest
  {
    hide PutOperands, GetOperands, Opcode, OperandsOk, PoolOk, MaximumOp;
    OperandsGetPut(m, b[0], b[1..]);
    assert b == [b[0]] + b[1..];
  }

  lemma {:induction false} InstructionLawful(m: Module)
    requires PoolOk(m.constants)
    ensures Lawful(InstructionC(m))
  {
    hide PutInstruction, GetInstruction, OperandsOk;
    forall i: Instruction, r: Bytes | OperandsOk(m, i)
      ensures GetInstruction(m, PutInstruction(m, i) + r) == Done(i, r)
    {
      InstructionPutGet(m, i, r);
    }
    forall b: Bytes | GetInstruction(m, b).Done?
      ensures OperandsOk(m, GetInstruction(m, b).value)
           && b == PutInstruction(m, GetInstruction(m, b).value) + GetInstruction(m, b).rest
    {
      InstructionGetPut(m, b);
    }
  }

  // -------- parts of a node --------

  function PutSegment(s: Segment): Bytes {
    match s
    case ConstantText(i) => [1] + Put16(i)
    case StateText(i) => [2] + Put16(i)
  }

  function GetSegment(m: Module, b: Bytes): Parsed<Segment> {
    match Get8(b)
    case Fail => Fail
    case Done(kind, rest) =>
      match Get16(rest)
      case Fail => Fail
      case Done(i, r) =>
        if kind == 1 && i < |m.constants| then Done(ConstantText(i), r)
        else if kind == 2 && i < |m.initialState| then Done(StateText(i), r)
        else Fail
  }

  function SegmentC(m: Module): Codec<Segment> {
    Codec((s: Segment) => PutSegment(s), b => GetSegment(m, b), (s: Segment) => SegmentOk(m, s))
  }

  lemma {:induction false} SegmentLawful(m: Module)
    ensures Lawful(SegmentC(m))
  {
    hide Put16, Get16;
    forall s: Segment, r: Bytes | SegmentOk(m, s) ensures GetSegment(m, PutSegment(s) + r) == Done(s, r) {
      Codec16(s.index, r, []);
      assert (PutSegment(s) + r)[1..] == Put16(s.index) + r;
    }
    forall b: Bytes | GetSegment(m, b).Done?
      ensures SegmentOk(m, GetSegment(m, b).value) && b == PutSegment(GetSegment(m, b).value) + GetSegment(m, b).rest
    {
      Codec16(0, [], b[1..]);
      assert b == [b[0]] + b[1..];
    }
  }

  function GetKey(b: Bytes): Parsed<PropertyKey> {
    match Get8(b) case Fail => Fail case Done(x, r) => if 1 <= x <= 6 then Done(x, r) else Fail
  }

  function GetEventType(b: Bytes): Parsed<EventType> {
    match Get8(b) case Fail => Fail case Done(x, r) => if 1 <= x <= 4 then Done(x, r) else Fail
  }

  function GetNodeType(b: Bytes): Parsed<NodeType> {
    match Get8(b) case Fail => Fail case Done(x, r) => if 1 <= x <= 11 then Done(x, r) else Fail
  }

  function KeyC(): Codec<PropertyKey> {
    Codec((x: PropertyKey) => [x], b => GetKey(b), (x: PropertyKey) => true)
  }

  function EventTypeC(): Codec<EventType> {
    Codec((x: EventType) => [x], b => GetEventType(b), (x: EventType) => true)
  }

  function NodeTypeC(): Codec<NodeType> {
    Codec((x: NodeType) => [x], b => GetNodeType(b), (x: NodeType) => true)
  }

  lemma {:induction false} KeyLawful()
    ensures Lawful(KeyC())
  {
    forall b: Bytes | GetKey(b).Done? ensures b == [GetKey(b).value] + GetKey(b).rest {
    }
  }

  lemma {:induction false} EventTypeLawful()
    ensures Lawful(EventTypeC())
  {
    forall b: Bytes | GetEventType(b).Done? ensures b == [GetEventType(b).value] + GetEventType(b).rest {
    }
  }

  lemma {:induction false} NodeTypeLawful()
    ensures Lawful(NodeTypeC())
  {
    forall b: Bytes | GetNodeType(b).Done? ensures b == [GetNodeType(b).value] + GetNodeType(b).rest {
    }
  }

  function PropertyC(m: Module): Codec<PropertyExpression> {
    Via(Both(KeyC(), Only(Counted(Count16(), SegmentC(m)), (ss: seq<Segment>) => 0 < |ss| <= 1024)),
        (x: (PropertyKey, seq<Segment>)) => PropertyExpression(x.0, x.1),
        (p: PropertyExpression) => (p.key, p.segments))
  }

  function BindingC(): Codec<EventBinding> {
    Via(Both(EventTypeC(), U16C()),
        (x: (EventType, u16)) => EventBinding(x.0, x.1),
        (e: EventBinding) => (e.event, e.handler))
  }

  lemma {:induction false} PartsLawful(m: Module)
    ensures Lawful(PropertyC(m)) && Lawful(BindingC())
  {
    SegmentLawful(m);
    KeyLawful();
    EventTypeLawful();
    U16Lawful();
    Count16Lawful();
    hide SegmentC, KeyC, EventTypeC, U16C, Count16, Lawful, Counted, Both, Only;
    CountedLawful(Count16(), SegmentC(m));
    OnlyLawful(Counted(Count16(), SegmentC(m)), (ss: seq<Segment>) => 0 < |ss| <= 1024);
    BothLawful(KeyC(), Only(Counted(Count16(), SegmentC(m)), (ss: seq<Segment>) => 0 < |ss| <= 1024));
    ViaLawful(Both(KeyC(), Only(Counted(Count16(), SegmentC(m)), (ss: seq<Segment>) => 0 < |ss| <= 1024)),
              (x: (PropertyKey, seq<Segment>)) => PropertyExpression(x.0, x.1),
              (p: PropertyExpression) => (p.key, p.segments));
    BothLawful(EventTypeC(), U16C());
    ViaLawful(Both(EventTypeC(), U16C()),
              (x: (EventType, u16)) => EventBinding(x.0, x.1),
              (e: EventBinding) => (e.event, e.handler));
  }
}

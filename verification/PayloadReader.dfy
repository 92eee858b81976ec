/** The loader: parse_payload's loops over one reader, filling the module section by
    section, proved to compute exactly the parsing function. */
module PayloadReader {
  import opened Basics
  import opened ByteCodec
  import opened Codecs
  import opened Bytecode
  import opened Elements
  import opened Payload

  // -------- lists, one element at a time --------

  // xs were read already and p is what the rest of the list parses to.
  function Resumed<T>(xs: seq<T>, p: Parsed<seq<T>>): Parsed<seq<T>> {
    match p case Fail => Fail case Done(ys, rest) => Done(xs + ys, rest)
  }

  lemma {:induction false} ListStart<T>(p: Parsed<seq<T>>)
    ensures Resumed([], p) == p
  {
    if p.Done? {
      assert [] + p.value == p.value;
    }
  }

  lemma {:induction false} ListStep<T>(c: Codec<T>, n: nat, xs: seq<T>, b: Bytes)
    requires n > 0
    ensures c.get(b).Fail? ==> Resumed(xs, GetAll(c, n, b)) == Fail
    ensures c.get(b).Done? ==>
      Resumed(xs, GetAll(c, n, b)) == Resumed(xs + [c.get(b).value], GetAll(c, n - 1, c.get(b).rest))
  {
    if c.get(b).Done? && GetAll(c, n - 1, c.get(b).rest).Done? {
      var x, ys := c.get(b).value, GetAll(c, n - 1, c.get(b).rest).value;
      assert xs + ([x] + ys) == (xs + [x]) + ys;
    }
  }

  lemma {:induction false} ListEnd<T>(c: Codec<T>, xs: seq<T>, b: Bytes)
    ensures Resumed(xs, GetAll(c, 0, b)) == Done(xs, b)
  {
    assert xs + [] == xs;
  }

  lemma {:induction false} ListLength<T>(c: Codec<T>, n: nat, b: Bytes)
    requires GetAll(c, n, b).Done?
    ensures |GetAll(c, n, b).value| == n
    decreases n
  {
    if n == 0 {
    } else {
      ListLength(c, n - 1, c.get(b).rest);
    }
  }

  method ReadTextTable(reader: Reader) returns (r: Option<seq<Bytes>>)
    requires reader.Valid()
    modifies reader
    ensures reader.Valid() && Took(r, TextTable().get(old(reader.Rest())), reader.Rest())
  {
    hide GetText, Get16;
    var count := reader.U16();
    if count.None? {
      return None;
    }
    ghost var whole := GetAll(TextC(), count.value, reader.Rest());
    assert TextTable().get(old(reader.Rest())) == whole;
    ListStart(whole);
    var result: seq<Bytes> := [];
    for i := 0 to count.value
      invariant reader.Valid() && whole == Resumed(result, GetAll(TextC(), count.value - i, reader.Rest()))
    {
      ListStep(TextC(), count.value - i, result, reader.Rest());
      var text := reader.Text();
      if text.None? {
        return None;
      }
      result := result + [text.value];
    }
    ListEnd(TextC(), result, reader.Rest());
    r := Some(result);
  }

  method ReadVersions(reader: Reader, format: u16, n: nat) returns (r: Option<seq<u16>>)
    requires reader.Valid()
    modifies reader
    ensures reader.Valid() && Took(r, VersionsC(format, n).get(old(reader.Rest())), reader.Rest())
  {
    hide Get16;
    if format < 3 {
      return Some(Ones(n));
    }
    ghost var whole := GetAll(U16C(), n, reader.Rest());
    ListStart(whole);
    var result: seq<u16> := [];
    for i := 0 to n
      invariant reader.Valid() && whole == Resumed(result, GetAll(U16C(), n - i, reader.Rest()))
      invariant forall k :: 0 <= k < |result| ==> result[k] != 0
    {
      ListStep(U16C(), n - i, result, reader.Rest());
      var version := reader.U16();
      if version.None? {
        return None;
      }
      if version.value == 0 {
        if whole.Done? {
          assert whole.value[|result|] == 0;
        }
        return None;
      }
      result := result + [version.value];
    }
    ListEnd(U16C(), result, reader.Rest());
    r := Some(result);
  }

  // -------- values and instructions --------

  method ReadTyped(reader: Reader, pool: seq<Bytes>) returns (r: Option<Value>)
    requires reader.Valid()
    modifies reader
    ensures reader.Valid() && Took(r, GetTyped(pool, old(reader.Rest())), reader.Rest())
  {
    hide Get16, GetI64;
    var tag := reader.U8();
    if tag.None? {
      return None;
    }
    match tag.value
    case 1 =>
      var i := reader.I64();
      return if i.Some? then Some(IntValue(i.value)) else None;
    case 2 =>
      var raw := reader.U8();
      return if raw.Some? && raw.value <= 1 then Some(BoolValue(raw.value == 1)) else None;
    case 3 =>
      var index := reader.U16();
      return if index.Some? && index.value < |pool| then Some(StringValue(pool[index.value])) else None;
    case _ => return None;
  }

  method ReadEffect(reader: Reader) returns (r: Option<EffectOperands>)
    requires reader.Valid()
    modifies reader
    ensures reader.Valid() && Took(r, GetEffect(old(reader.Rest())), reader.Rest())
  {
    hide Get16;
    var c := reader.U16();
    if c.None? {
      return None;
    }
    var o := reader.U16();
    if o.None? {
      return None;
    }
    var n := reader.U8();
    return if n.Some? then Some(EffectOperands(c.value, o.value, n.value)) else None;
  }

  method ReadOperands(reader: Reader, m: Module, op: u8) returns (r: Option<Instruction>)
    requires reader.Valid()
    modifies reader
    ensures reader.Valid() && Took(r, GetOperands(m, op, old(reader.Rest())), reader.Rest())
  {
    hide Get16, Get32, GetTyped, GetEffect;
    if op == 1 {
      var v := ReadTyped(reader, m.constants);
      return if v.Some? then Some(Constant(v.value)) else None;
    } else if op == 4 || op == 5 || op == 12 {
      var x := reader.U16();
      if x.None? {
        return None;
      }
      return Some(if op == 4 then StateGet(x.value) else if op == 5 then StateSet(x.value) else Render(x.value));
    } else if op == 8 || op == 9 {
      var t := reader.U32();
      if t.None? {
        return None;
      }
      return Some(if op == 8 then Jump(t.value) else JumpIfFalse(t.value));
    } else if op == 10 || op == 14 {
      var e := ReadEffect(reader);
      if e.None? {
        return None;
      }
      var (c, o, n) := (e.value.capability, e.value.operation, e.value.arity);
      return Some(if op == 10 then Effect(c, o, n) else AsyncEffect(c, o, n));
    }
    match op
    case 6 => return Some(IntegerAdd);
    case 7 => return Some(Equal);
    case 11 => return Some(Pop);
    case 13 => return Some(Halt);
    case 15 => return Some(EventValue);
    case _ => return None;
  }

  method ReadInstruction(reader: Reader, m: Module) returns (r: Option<Instruction>)
    requires reader.Valid()
    modifies reader
    ensures reader.Valid() && Took(r, GetInstruction(m, old(reader.Rest())), reader.Rest())
  {
    hide GetOperands, OperandsOk;
    var op := reader.U8();
    if op.None? || (op.value != 1 && (op.value < 4 || op.value > MaximumOp(m.format))) {
      return None;
    }
    var i := ReadOperands(reader, m, op.value);
    return if i.Some? && OperandsOk(m, i.value) then i else None;
  }

  method ReadCode(reader: Reader, m: Module) returns (r: Option<Code>)
    requires reader.Valid()
    modifies reader
    ensures reader.Valid() && Took(r, CodeC(m).get(old(reader.Rest())), reader.Rest())
  {
    hide Get32, GetInstruction;
    var count := reader.U32();
    if count.None? {
      return None;
    }
    ghost var whole := GetAll(InstructionC(m), count.value, reader.Rest());
    assert Counted(U32C(), InstructionC(m)).get(old(reader.Rest())) == whole;
    if whole.Done? {
      ListLength(InstructionC(m), count.value, reader.Rest());
    }
    if count.value == 0 || count.value > MAX_HANDLER {
      return None;
    }
    ListStart(whole);
    var code: Code := [];
    for i := 0 to count.value
      invariant reader.Valid() && whole == Resumed(code, GetAll(InstructionC(m), count.value - i, reader.Rest()))
    {
      ListStep(InstructionC(m), count.value - i, code, reader.Rest());
      var instruction := ReadInstruction(reader, m);
      if instruction.None? {
        return None;
      }
      code := code + [instruction.value];
    }
    ListEnd(InstructionC(m), code, reader.Rest());
    r := Some(code);
  }

  method ReadHandlers(reader: Reader, m: Module) returns (r: Option<seq<Code>>)
    requires reader.Valid()
    modifies reader
    ensures reader.Valid() && Took(r, HandlersC(m).get(old(reader.Rest())), reader.Rest())
  {
    hide Get16, CodeC;
    var count := reader.U16();
    if count.None? {
      return None;
    }
    ghost var whole := GetAll(CodeC(m), count.value, reader.Rest());
    ListStart(whole);
    var handlers: seq<Code> := [];
    for i := 0 to count.value
      invariant reader.Valid() && whole == Resumed(handlers, GetAll(CodeC(m), count.value - i, reader.Rest()))
    {
      ListStep(CodeC(m), count.value - i, handlers, reader.Rest());
      var code := ReadCode(reader, m);
      if code.None? {
        return None;
      }
      handlers := handlers + [code.value];
    }
    ListEnd(CodeC(m), handlers, reader.Rest());
    r := Some(handlers);
  }
}

/** The compiler object: a constant pool that only grows, node IDs seen so far, and the
    handlers that read an event's value. */
module Compiler {
  import opened Basics
  import opened Bytecode
  import opened Elements
  import opened HandlerVerifier
  import opened NodeReader
  import opened Writers
  import opened Templates
  import opened Dsl
  import opened SourceTypes

  // The part of the module that the handler checker looks at.
  function Draft(t: Tables, pool: seq<Bytes>, initial: seq<Value>): Module {
    Module(t.format, 0, 0, 0, 0, [], [], [], [], 0, 0, Limits(0, 0, 0, 0, 0),
           t.capabilities, [], [], [], pool, [], initial, [], [], 0, None)
  }

  lemma {:induction false} MeansOperands(t: Tables, m: Module, s: SourceInstruction, i: Instruction)
    requires InstructionMeans(t, m.constants, s, i)
    requires m.format == t.format && m.capabilities == t.capabilities && |m.initialState| == |t.states|
    ensures OperandsOk(m, i)
  {
  }

  lemma {:induction false} CodeOperands(t: Tables, m: Module, body: seq<SourceInstruction>, code: Code)
    requires CodeMeans(t, m.constants, body, code)
    requires m.format == t.format && m.capabilities == t.capabilities && |m.initialState| == |t.states|
    ensures Operands(m, code)
  {
    forall k | 0 <= k < |code| ensures OperandsOk(m, code[k]) {
      MeansOperands(t, m, body[k], code[k]);
    }
  }

  // The codes are those of the handlers, each closed by a stop.
  ghost predicate HandlersMean(t: Tables, pool: seq<Bytes>, hs: seq<HandlerSpec>, codes: seq<Code>) {
    |codes| == |hs| && forall h :: 0 <= h < |hs| ==> CodeMeans(t, pool, Closed(hs[h].body), codes[h])
  }

  // What _handlers demands of the handlers of a description.
  ghost predicate HandlersAcceptable(t: Tables, types: seq<ValueType>, hs: seq<HandlerSpec>) {
    forall h :: 0 <= h < |hs| ==> BodyOk(t, hs[h].body) && WellTyped(t, types, None, Closed(hs[h].body))
  }

  // The values a state table may start from: strings are in the pool.
  ghost predicate InPool(pool: seq<Bytes>, vs: seq<Value>) {
    forall k :: 0 <= k < |vs| ==> (vs[k].StringValue? ==> vs[k].s in pool)
  }

  class Compiler {
    const source: Source
    const format: u16
    const hash: Bytes -> u32
    var constants: seq<Bytes>
    var ids: map<Bytes, u16>
    var nodeIds: set<u32>
    var nodeCount: nat
    var eventValueHandlers: set<Bytes>

    constructor (source: Source, format: u16, hash: Bytes -> u32)
      ensures this.source == source && this.format == format && this.hash == hash
      ensures Valid() && constants == [] && nodeIds == {} && nodeCount == 0 && eventValueHandlers == {}
    {
      this.source, this.format, this.hash := source, format, hash;
      constants, ids, nodeIds, nodeCount, eventValueHandlers := [], map[], {}, 0, {};
    }

    ghost predicate Valid()
      reads this
    {
      IdsOf(constants, ids) && |constants| <= MAX_U16
    }

    // Once the strings are interned too, the pool and every index table fit their
    // two-byte indices.
    ghost predicate Roomy(pool: seq<Bytes>, strings: seq<Bytes>) {
      |InternAll(pool, strings)| <= MAX_U16 && Indexable(T())
    }

    // A loop that still has xs + rest to intern interns xs.
    lemma {:induction false} InternNext(start: seq<Bytes>, strings: seq<Bytes>, pool: seq<Bytes>, xs: seq<Bytes>,
        rest: seq<Bytes>)
      requires InternAll(pool, xs + rest) == InternAll(start, strings)
      ensures InternAll(InternAll(pool, xs), rest) == InternAll(start, strings)
      ensures Roomy(start, strings) ==> Roomy(pool, xs)
    {
      InternConcat(pool, xs, rest);
      assert InternAll(pool, xs) <= InternAll(InternAll(pool, xs), rest);
    }

    function T(): Tables {
      TablesOf(source, format)
    }

    // -------- the constant pool --------

    // Interns a string. Earlier entries keep their place; the pool takes no duplicate.
    method Intern(s: Bytes) returns (r: Option<u16>)
      requires Valid()
      modifies this`constants, this`ids
      ensures Valid() && (r.Some? <==> |Interned(old(constants), s)| <= MAX_U16)
      ensures forall x :: x in old(ids) ==> x in ids && ids[x] == old(ids[x])
      ensures r.Some? ==> constants == Interned(old(constants), s) && Named(constants, r.value, s)
      ensures r.Some? ==> s in constants && IndexOf(constants, s) == r.value
    {
      if s !in ids {
        DistinctConcat(constants, [s]);
        if |constants| == MAX_U16 {
          return None;
        }
        ids := ids[s := |constants|];
        constants := constants + [s];
        assert forall k :: 0 <= k < |constants| - 1 ==> constants[k] == old(constants)[k];
        assert constants[|constants| - 1] == s;
      }
      IdIsIndex(constants, ids, s);
      r := Some(ids[s]);
    }

    // -------- templates --------

    // Splits a template at its placeholders, in one pass from left to right.
    method Segments(value: Bytes) returns (r: Option<seq<Segment>>)
      requires Valid()
      modifies this`constants, this`ids
      ensures Valid()
      ensures r.Some? ==> TemplateMeans(T().states, constants, value, r.value) && NamesKnown(T().states, value)
      ensures r.Some? ==> constants == InternAll(old(constants), TextsOf(Pieces(value)))
      ensures r.None? ==> !NamesKnown(T().states, value) || !Roomy(old(constants), TextsOf(Pieces(value)))
    {
      hide IdsOf, PlaceholderAt, InternAll, Interned, SegmentsAre, TextsOf, NameIn;
      var names := T().states;
      var segments: seq<Segment> := [];
      var position: nat, scan: nat := 0, 0;
      ghost var done: seq<Piece> := [];
      NothingSplit(names, constants);
      while scan < |value|
        invariant Valid() && position <= scan <= |value|
        invariant value != [] ==> done + PiecesFrom(value, position, scan) == Pieces(value)
        invariant value == [] ==> done == [] && segments == []
        invariant position > 0 ==> |segments| > 0
        invariant SegmentsAre(names, constants, done, segments) && HolesKnown(names, done)
        invariant constants == InternAll(old(constants), TextsOf(done))
      {
        var found := PlaceholderAt(value, scan);
        if found.None? {
          scan := scan + 1;
        } else {
          var hole := Hole(NameIn(value, scan));
          ghost var rest := PiecesFrom(value, found.value, found.value);
          if scan > position {
            var i := Intern(value[position..scan]);
            if i.None? {
              NoRoom(old(constants), done, value[position..scan], [hole] + rest);
              assert done + [Text(value[position..scan])] + ([hole] + rest) == Pieces(value);
              return None;
            }
            TextSplit(names, old(constants), done, segments, value[position..scan], i.value);
            segments := segments + [ConstantText(i.value)];
            done := done + [Text(value[position..scan])];
          }
          assert done + [hole] + rest == Pieces(value);
          var state := NameIndex(names, hole.name);
          if state.None? {
            assert Pieces(value)[|done|] == hole;
            return None;
          }
          if state.value > MAX_U16 {
            return None;
          }
          HoleSplit(names, constants, old(constants), done, segments, hole.name, state.value);
          segments := segments + [StateText(state.value)];
          done := done + [hole];
          position := found.value;
          scan := position;
        }
      }
      if position < |value| || segments == [] {
        ghost var last := Text(value[position..]);
        assert value[position..] == value[position..scan];
        assert value == [] ==> value[position..] == [];
        assert done + [last] == Pieces(value);
        assert done + [last] + [] == Pieces(value);
        var i := Intern(value[position..]);
        if i.None? {
          NoRoom(old(constants), done, value[position..], []);
          return None;
        }
        TextSplit(names, old(constants), done, segments, value[position..], i.value);
        segments := segments + [ConstantText(i.value)];
        done := done + [last];
      } else {
        assert PiecesFrom(value, position, scan) == [];
        assert done + [] == done;
      }
      assert done == Pieces(value);
      r := Some(segments);
    }

    lemma {:induction false} NothingSplit(names: seq<Bytes>, pool: seq<Bytes>)
      ensures SegmentsAre(names, pool, [], []) && pool == InternAll(pool, TextsOf([]))
    {
    }

    lemma {:induction false} TextStep(done: seq<Piece>, p: Piece)
      ensures TextsOf(done + [p]) == TextsOf(done) + (if p.Text? then [p.text] else [])
    {
      TextsConcat(done, [p]);
      assert TextsOf([]) == [] && [p][1..] == [];
    }

    lemma {:induction false} InternStep(start: seq<Bytes>, xs: seq<Bytes>, x: Bytes)
      ensures InternAll(start, xs + [x]) == Interned(InternAll(start, xs), x)
    {
      InternConcat(start, xs, [x]);
      assert InternAll(Interned(InternAll(start, xs), x), []) == Interned(InternAll(start, xs), x);
      assert [x][1..] == [];
    }

    lemma {:induction false} NoRoom(start: seq<Bytes>, done: seq<Piece>, text: Bytes, rest: seq<Piece>)
      requires |Interned(InternAll(start, TextsOf(done)), text)| > MAX_U16
      ensures !Roomy(start, TextsOf(done + [Text(text)] + rest))
    {
      hide Interned;
      TextStep(done, Text(text));
      TextsConcat(done + [Text(text)], rest);
      InternStep(start, TextsOf(done), text);
      InternConcat(start, TextsOf(done + [Text(text)]), TextsOf(rest));
      hide InternAll;
      assert InternAll(start, TextsOf(done + [Text(text)]))
          <= InternAll(InternAll(start, TextsOf(done + [Text(text)])), TextsOf(rest));
    }

    lemma {:induction false} TextSplit(names: seq<Bytes>, start: seq<Bytes>, done: seq<Piece>, gs: seq<Segment>,
        text: Bytes, i: u16)
      requires SegmentsAre(names, InternAll(start, TextsOf(done)), done, gs) && HolesKnown(names, done)
      requires Named(Interned(InternAll(start, TextsOf(done)), text), i, text)
      ensures var pool := Interned(InternAll(start, TextsOf(done)), text);
        && SegmentsAre(names, pool, done + [Text(text)], gs + [ConstantText(i)])
        && pool == InternAll(start, TextsOf(done + [Text(text)]))
      ensures HolesKnown(names, done + [Text(text)])
    {
      TextStep(done, Text(text));
      InternStep(start, TextsOf(done), text);
      hide TextsOf, InternAll;
      SegmentsStay(names, InternAll(start, TextsOf(done)), Interned(InternAll(start, TextsOf(done)), text), done, gs);
    }

    lemma {:induction false} HoleSplit(names: seq<Bytes>, pool: seq<Bytes>, start: seq<Bytes>, done: seq<Piece>,
        gs: seq<Segment>, name: Bytes, k: u16)
      requires SegmentsAre(names, pool, done, gs) && HolesKnown(names, done) && Named(names, k, name)
      requires pool == InternAll(start, TextsOf(done))
      ensures SegmentsAre(names, pool, done + [Hole(name)], gs + [StateText(k)])
      ensures HolesKnown(names, done + [Hole(name)]) && pool == InternAll(start, TextsOf(done + [Hole(name)]))
    {
      TextStep(done, Hole(name));
      assert TextsOf(done) + [] == TextsOf(done);
    }

    // -------- states --------

    method States() returns (r: Option<seq<Value>>)
      requires Valid()
      modifies this`constants, this`ids
      ensures Valid()
      ensures r.Some? ==>
        && r.value == Initials(source) && InPool(constants, r.value)
        && constants == InternAll(old(constants), StateStrings(source.states))
      ensures r.None? ==> !Roomy(old(constants), StateStrings(source.states))
    {
      hide IdsOf, Indexable, InternAll, Interned, StateStrings, Roomy;
      var states: seq<Value> := [];
      ghost var strings := StateStrings(source.states);
      assert source.states[0..] == source.states;
      for k := 0 to |source.states|
        invariant Valid() && |states| == k && InPool(constants, states)
        invariant forall j :: 0 <= j < k ==> states[j] == source.states[j].initial
        invariant InternAll(constants, StateStrings(source.states[k..])) == InternAll(old(constants), strings)
      {
        ghost var before := constants;
        var v := source.states[k].initial;
        StateStringsStep(source.states, k);
        InternNext(old(constants), strings, constants, ValueStrings(v), StateStrings(source.states[k + 1..]));
        ValueInterned(constants, v);
        if v.StringValue? {
          var i := Intern(v.s);
          if i.None? {
            OneTooMany(before, v.s);
            return None;
          }
          assert constants[i.value] == v.s;
          PrefixKeeps(before, constants);
        }
        states := states + [v];
      }
      NothingLeft(constants);
      assert source.states[|source.states|..] == [];
      r := Some(states);
    }

    lemma {:induction false} StateStringsStep(ss: seq<StateSpec>, k: nat)
      requires k < |ss|
      ensures StateStrings(ss[k..]) == ValueStrings(ss[k].initial) + StateStrings(ss[k + 1..])
    {
      assert ss[k..][1..] == ss[k + 1..];
    }

    lemma {:induction false} ValueInterned(pool: seq<Bytes>, v: Value)
      ensures InternAll(pool, ValueStrings(v)) == if v.StringValue? then Interned(pool, v.s) else pool
    {
      InternOne(pool, if v.StringValue? then v.s else []);
    }

    lemma {:induction false} InternOne(pool: seq<Bytes>, x: Bytes)
      ensures InternAll(pool, [x]) == Interned(pool, x) && pool <= Interned(pool, x)
    {
      assert [x][1..] == [] && InternAll(Interned(pool, x), []) == Interned(pool, x);
    }

    lemma {:induction false} OneTooMany(pool: seq<Bytes>, x: Bytes)
      requires |Interned(pool, x)| > MAX_U16
      ensures !Roomy(pool, [x])
    {
      InternOne(pool, x);
    }

    lemma {:induction false} NothingLeft(pool: seq<Bytes>)
      ensures InternAll(pool, []) == pool
      ensures StateStrings([]) == BodyStrings([]) == HandlerStrings([]) == PropertyStrings([]) == NodeStringsAll([]) == []
    {
    }

    // -------- instructions --------

    // The index of a name that must exist and fit its operand.
    method Resolve(names: seq<Bytes>, name: Bytes) returns (r: Option<u16>)
      ensures r.Some? ==> Named(names, r.value, name)
      ensures r.None? ==> name !in names || |names| > MAX_U16
    {
      var i := NameIndex(names, name);
      return if i.Some? && i.value <= MAX_U16 then Some(i.value) else None;
    }

    method CompileInstruction(item: SourceInstruction) returns (r: Option<Instruction>)
      requires Valid()
      modifies this`constants, this`ids
      ensures Valid()
      ensures r.Some? ==> InstructionMeans(T(), constants, item, r.value) && InstructionOk(T(), item)
      ensures r.Some? ==> constants == InternAll(old(constants), InstructionStrings(item))
      ensures r.None? ==> !InstructionOk(T(), item) || !Roomy(old(constants), InstructionStrings(item))
    {
      hide IdsOf, InternAll, Interned, IndexOf;
      InternsNothing(constants);
      match item
      case Const(v) =>
        ValueInterned(constants, v);
        if v.StringValue? {
          var i := Intern(v.s);
          if i.None? {
            return None;
          }
          assert constants[i.value] in constants;
        }
        return Some(Constant(v));
      case GetState(n) =>
        var i := Resolve(T().states, n);
        return if i.Some? then Some(StateGet(i.value)) else None;
      case SetState(n) =>
        var i := Resolve(T().states, n);
        return if i.Some? then Some(StateSet(i.value)) else None;
      case Goto(d) => return if d <= MAX_U32 then Some(Jump(d)) else None;
      case GotoUnless(d) => return if d <= MAX_U32 then Some(JumpIfFalse(d)) else None;
      case Call(c, o, n) =>
        var e := CompileEffect(c, o, n);
        return if e.Some? then Some(Effect(e.value.capability, e.value.operation, e.value.arity)) else None;
      case CallLater(c, o, n) =>
        if format < 2 {
          return None;
        }
        var e := CompileEffect(c, o, n);
        return if e.Some? then Some(AsyncEffect(e.value.capability, e.value.operation, e.value.arity)) else None;
      case Show(p) =>
        var i := Resolve(T().pages, p);
        return if i.Some? then Some(Render(i.value)) else None;
      case Input => return if format >= 5 then Some(EventValue) else None;
      case Add => return Some(IntegerAdd);
      case Compare => return Some(Equal);
      case Discard => return Some(Pop);
      case Stop => return Some(Halt);
    }

    lemma {:induction false} InternsNothing(pool: seq<Bytes>)
      ensures InternAll(pool, []) == pool
    {
    }

    method CompileEffect(capability: Bytes, operation: Bytes, arguments: nat) returns (r: Option<EffectOperands>)
      requires Valid()
      modifies this`constants, this`ids
      ensures Valid()
      ensures r.Some? ==> constants == InternAll(old(constants), [operation])
      ensures r.Some? ==>
        && Named(T().capabilities, r.value.capability, capability)
        && Named(constants, r.value.operation, operation) && r.value.arity == arguments <= MAX_ARGUMENTS
        && operation != []
      ensures r.None? ==>
        capability !in T().capabilities || operation == [] || arguments > MAX_ARGUMENTS
        || !Roomy(old(constants), [operation])
    {
      hide IdsOf, InternAll, Interned;
      InternOne(constants, operation);
      var c := Resolve(T().capabilities, capability);
      if c.None? || operation == [] || arguments > MAX_ARGUMENTS {
        return None;
      }
      var o := Intern(operation);
      return if o.Some? then Some(EffectOperands(c.value, o.value, arguments)) else None;
    }

    // -------- handlers --------

    method CompileCode(body: seq<SourceInstruction>) returns (r: Option<Code>)
      requires Valid()
      modifies this`constants, this`ids
      ensures Valid()
      ensures r.Some? ==> CodeMeans(T(), constants, body, r.value) && BodyOk(T(), body)
      ensures r.Some? ==> constants == InternAll(old(constants), BodyStrings(body))
      ensures r.None? ==> !BodyOk(T(), body) || !Roomy(old(constants), BodyStrings(body))
    {
      hide IdsOf, InstructionMeans, InstructionOk, Roomy, InternAll, BodyStrings, InstructionStrings;
      var code: Code := [];
      ghost var strings := BodyStrings(body);
      assert body[0..] == body;
      for k := 0 to |body|
        invariant Valid() && CodeMeans(T(), constants, body[..k], code)
        invariant forall j :: 0 <= j < k ==> InstructionOk(T(), body[j])
        invariant InternAll(constants, BodyStrings(body[k..])) == InternAll(old(constants), strings)
      {
        ghost var before := constants;
        BodyStringsStep(body, k);
        InternNext(old(constants), strings, constants, InstructionStrings(body[k]), BodyStrings(body[k + 1..]));
        var i := CompileInstruction(body[k]);
        if i.None? {
          return None;
        }
        CodeStays(T(), before, constants, body[..k], code);
        code := code + [i.value];
        assert body[..k + 1] == body[..k] + [body[k]];
      }
      NothingLeft(constants);
      assert body[|body|..] == [];
      assert body[..|body|] == body;
      r := Some(code);
    }

    lemma {:induction false} BodyStringsStep(body: seq<SourceInstruction>, k: nat)
      requires k < |body|
      ensures BodyStrings(body[k..]) == InstructionStrings(body[k]) + BodyStrings(body[k + 1..])
    {
      assert body[k..][1..] == body[k + 1..];
    }

    method Handlers(initial: seq<Value>) returns (r: Option<seq<Code>>)
      requires Valid() && |initial| == |source.states| && eventValueHandlers == {} && Distinct(T().states)
      modifies this`constants, this`ids, this`eventValueHandlers
      ensures Valid()
      ensures r.Some? ==> HandlersMean(T(), constants, source.handlers, r.value)
      ensures r.Some? ==> constants == InternAll(old(constants), HandlerStrings(source.handlers))
      ensures r.Some? ==> eventValueHandlers == ReaderNames(source.handlers)
      ensures r.Some? ==> HandlersAcceptable(T(), TypesOf(initial), source.handlers)
      ensures r.None? ==>
        || !HandlersAcceptable(T(), TypesOf(initial), source.handlers)
        || !Roomy(old(constants), HandlerStrings(source.handlers))
    {
      hide IdsOf, CodeMeans, UsesInput, BodyOk, WellTyped, Roomy, InternAll, HandlerStrings, BodyStrings, TypesOf, Closed;
      var result: seq<Code> := [];
      ghost var strings := HandlerStrings(source.handlers);
      assert source.handlers[0..] == source.handlers;
      for h := 0 to |source.handlers|
        invariant Valid() && HandlersMean(T(), constants, source.handlers[..h], result)
        invariant eventValueHandlers == ReaderNames(source.handlers[..h])
        invariant HandlersAcceptable(T(), TypesOf(initial), source.handlers[..h])
        invariant InternAll(constants, HandlerStrings(source.handlers[h..])) == InternAll(old(constants), strings)
      {
        ghost var before := constants;
        var spec := source.handlers[h];
        HandlerStringsStep(source.handlers, h);
        InternNext(old(constants), strings, constants, BodyStrings(spec.body), HandlerStrings(source.handlers[h + 1..]));
        var code := CompileCode(spec.body);
        if code.None? {
          return None;
        }
        if UsesInput(spec.body) {
          eventValueHandlers := eventValueHandlers + {spec.name};
        }
        ReadersStep(source.handlers, h);
        var closed := CloseHandler(initial, spec.body, code.value);
        if closed.None? {
          return None;
        }
        HandlersStay(T(), before, constants, source.handlers[..h], result);
        result := result + [closed.value];
        assert source.handlers[..h + 1] == source.handlers[..h] + [spec];
      }
      NothingLeft(constants);
      assert source.handlers[|source.handlers|..] == [];
      assert source.handlers[..|source.handlers|] == source.handlers;
      r := Some(result);
    }

    lemma {:induction false} HandlerStringsStep(hs: seq<HandlerSpec>, k: nat)
      requires k < |hs|
      ensures HandlerStrings(hs[k..]) == BodyStrings(hs[k].body) + HandlerStrings(hs[k + 1..])
    {
      assert hs[k..][1..] == hs[k + 1..];
    }

    // Appends the final halt when it is missing, and checks the handler.
    method CloseHandler(initial: seq<Value>, body: seq<SourceInstruction>, code: Code) returns (r: Option<Code>)
      requires CodeMeans(T(), constants, body, code) && |initial| == |source.states| && Distinct(T().states)
      ensures r.Some? ==> CodeMeans(T(), constants, Closed(body), r.value)
      ensures r.Some? <==> WellTyped(T(), TypesOf(initial), None, Closed(body))
    {
      hide CodeMeans, Typable, Least, HasHalt, WellTyped, TypesOf, Closed;
      ClosedMeans(T(), constants, body, code);
      var closed := code;
      if closed == [] || closed[|closed| - 1] != Halt {
        closed := closed + [Halt];
      }
      CodeOperands(T(), Draft(T(), constants, initial), Closed(body), closed);
      var accepted, incoming := CheckHandler(Draft(T(), constants, initial), closed);
      ClosedHalts(T(), constants, body, closed);
      TypingAgrees(T(), Draft(T(), constants, initial), CompilerPolicy, Closed(body), closed);
      r := if accepted then Some(closed) else None;
    }

    lemma {:induction false} ClosedHalts(t: Tables, pool: seq<Bytes>, body: seq<SourceInstruction>, code: Code)
      requires CodeMeans(t, pool, Closed(body), code)
      ensures HasHalt(code)
    {
      var last := |Closed(body)| - 1;
      assert InstructionMeans(t, pool, Closed(body)[last], code[last]);
      assert code[last].Halt?;
    }

    lemma {:induction false} HandlersStay(t: Tables, pool: seq<Bytes>, larger: seq<Bytes>, hs: seq<HandlerSpec>,
                                          codes: seq<Code>)
      requires HandlersMean(t, pool, hs, codes) && pool <= larger
      ensures HandlersMean(t, larger, hs, codes)
    {
      hide CodeMeans;
      forall h | 0 <= h < |hs| ensures CodeMeans(t, larger, Closed(hs[h].body), codes[h]) {
        CodeStays(t, pool, larger, Closed(hs[h].body), codes[h]);
      }
    }

    lemma {:induction false} ReadersStep(hs: seq<HandlerSpec>, h: nat)
      requires h < |hs|
      ensures ReaderNames(hs[..h + 1]) == ReaderNames(hs[..h]) + (if UsesInput(hs[h].body) then {hs[h].name} else {})
    {
      assert hs[..h + 1] == hs[..h] + [hs[h]];
    }

    // The halt the compiler appends is the stop of the closed body.
    lemma {:induction false} ClosedMeans(t: Tables, pool: seq<Bytes>, body: seq<SourceInstruction>, code: Code)
      requires CodeMeans(t, pool, body, code)
      ensures CodeMeans(t, pool, Closed(body), if code == [] || code[|code| - 1] != Halt then code + [Halt] else code)
    {
      if body != [] {
        assert InstructionMeans(t, pool, body[|body| - 1], code[|code| - 1]);
      }
    }

    // -------- UI nodes --------

    method Properties(ps: seq<SourceProperty>) returns (r: Option<seq<PropertyExpression>>)
      requires Valid()
      modifies this`constants, this`ids
      ensures Valid()
      ensures r.Some? ==> PropertiesMean(T(), constants, ps, r.value)
      ensures r.Some? ==> constants == InternAll(old(constants), PropertyStrings(ps))
      ensures r.Some? ==> forall k :: 0 <= k < |ps| ==> NamesKnown(T().states, ps[k].template)
      ensures r.None? ==>
        || !Roomy(old(constants), PropertyStrings(ps))
        || exists k :: 0 <= k < |ps| && !NamesKnown(T().states, ps[k].template)
    {
      hide IdsOf, TemplateMeans, NamesKnown, Roomy, InternAll, PropertyStrings, TextsOf, Pieces;
      var result: seq<PropertyExpression> := [];
      ghost var strings := PropertyStrings(ps);
      assert ps[0..] == ps;
      for k := 0 to |ps|
        invariant Valid() && PropertiesMean(T(), constants, ps[..k], result)
        invariant forall j :: 0 <= j < k ==> NamesKnown(T().states, ps[j].template)
        invariant InternAll(constants, PropertyStrings(ps[k..])) == InternAll(old(constants), strings)
      {
        ghost var before := constants;
        PropertyStringsStep(ps, k);
        InternNext(old(constants), strings, constants, TextsOf(Pieces(ps[k].template)), PropertyStrings(ps[k + 1..]));
        var segments := Segments(ps[k].template);
        if segments.None? {
          return None;
        }
        PropertiesStay(T(), before, constants, ps[..k], result);
        result := result + [PropertyExpression(ps[k].key, segments.value)];
      }
      NothingLeft(constants);
      assert ps[|ps|..] == [];
      assert ps[..|ps|] == ps;
      r := Some(result);
    }

    lemma {:induction false} PropertyStringsStep(ps: seq<SourceProperty>, k: nat)
      requires k < |ps|
      ensures PropertyStrings(ps[k..]) == TextsOf(Pieces(ps[k].template)) + PropertyStrings(ps[k + 1..])
    {
      hide TextsOf, Pieces;
      assert ps[k..][1..] == ps[k + 1..];
    }

    method Events(es: seq<SourceEvent>) returns (r: Option<seq<EventBinding>>)
      ensures r.Some? ==> EventsMean(T(), es, r.value)
      ensures r.Some? ==> forall k :: 0 <= k < |es| ==> es[k].handler in T().handlers
      ensures r.None? ==> !Indexable(T()) || exists k :: 0 <= k < |es| && es[k].handler !in T().handlers
    {
      var result: seq<EventBinding> := [];
      for k := 0 to |es|
        invariant EventsMean(T(), es[..k], result)
        invariant forall j :: 0 <= j < k ==> es[j].handler in T().handlers
      {
        var handler := Resolve(T().handlers, es[k].handler);
        if handler.None? {
          return None;
        }
        result := result + [EventBinding(es[k].event, handler.value)];
      }
      assert es[..|es|] == es;
      r := Some(result);
    }

    // The IDs of a compiled tree are new, and the object records them.
    ghost predicate Registered(count: nat, seen: set<u32>, listed: seq<u32>)
      reads this
    {
      && Distinct(listed) && (forall x :: x in listed ==> x !in seen)
      && nodeIds == seen + SetOf(listed) && nodeCount == count + |listed|
    }

    // The IDs of a tree are new and pairwise different.
    ghost predicate NewIds(seen: set<u32>, listed: seq<u32>) {
      Distinct(listed) && forall x :: x in listed ==> x !in seen
    }

    method Node(s: SourceNode) returns (r: Option<UiNode>)
      requires Valid()
      modifies this`constants, this`ids, this`nodeIds, this`nodeCount
      ensures Valid()
      ensures r.Some? ==> NodeMeans(T(), constants, hash, s, r.value)
      ensures r.Some? ==> constants == InternAll(old(constants), NodeStrings(s))
      ensures r.Some? ==> Registered(old(nodeCount), old(nodeIds), Ids(r.value))
      ensures r.Some? ==> NodeSourceOk(T(), s) && NewIds(old(nodeIds), SourceIds(hash, s))
      ensures r.None? ==>
        || !Roomy(old(constants), NodeStrings(s)) || !NodeSourceOk(T(), s)
        || !NewIds(old(nodeIds), SourceIds(hash, s))
      decreases s, 1
    {
      hide IdsOf, PropertiesMean, EventsMean, Roomy, NamesKnown, InternAll, PropertyStrings, NodeStringsAll, Indexable;
      NewIdsUnder(nodeIds, hash(s.id), SourceIdsAll(hash, s.children));
      InternNext(constants, NodeStrings(s), constants, PropertyStrings(s.properties), NodeStringsAll(s.children));
      RoomyIndexable(constants, NodeStrings(s));
      var id := hash(s.id);
      if s.id == [] || id in nodeIds {
        return None;
      }
      nodeIds := nodeIds + {id};
      nodeCount := nodeCount + 1;
      var properties := Properties(s.properties);
      if properties.None? {
        return None;
      }
      var events := Events(s.events);
      if events.None? {
        return None;
      }
      ghost var before := constants;
      RoomyAfter(old(constants), NodeStrings(s), constants, NodeStringsAll(s.children));
      var children := Nodes(s.children);
      if children.None? {
        return None;
      }
      PropertiesStay(T(), before, constants, s.properties, properties.value);
      RegisteredUnder(old(nodeCount), old(nodeIds), id, IdsAll(children.value));
      var n := UiNode(s.kind, id, properties.value, events.value, children.value);
      assert NodeMeans(T(), constants, hash, s, n);
      r := Some(n);
    }

    lemma {:induction false} RoomyIndexable(pool: seq<Bytes>, strings: seq<Bytes>)
      ensures Roomy(pool, strings) ==> Indexable(T())
    {
    }

    lemma {:induction false} RoomyAfter(start: seq<Bytes>, strings: seq<Bytes>, pool: seq<Bytes>, rest: seq<Bytes>)
      requires InternAll(pool, rest) == InternAll(start, strings)
      ensures Roomy(start, strings) <==> Roomy(pool, rest)
    {
    }

    lemma {:induction false} NewIdsUnder(seen: set<u32>, id: u32, listed: seq<u32>)
      ensures NewIds(seen, [id] + listed) <==> id !in seen && NewIds(seen + {id}, listed)
    {
      DistinctConcat([id], listed);
      assert forall x :: x in [id] + listed <==> x == id || x in listed;
    }

    lemma {:induction false} RegisteredUnder(count: nat, seen: set<u32>, id: u32, listed: seq<u32>)
      requires id !in seen && Registered(count + 1, seen + {id}, listed)
      ensures Registered(count, seen, [id] + listed)
    {
      DistinctConcat([id], listed);
    }

    // The loop over a node's children, and the one over the pages.
    method Nodes(ss: seq<SourceNode>) returns (r: Option<seq<UiNode>>)
      requires Valid()
      modifies this`constants, this`ids, this`nodeIds, this`nodeCount
      ensures Valid()
      ensures r.Some? ==> |r.value| == |ss| && forall k :: 0 <= k < |ss| ==> NodeMeans(T(), constants, hash, ss[k], r.value[k])
      ensures r.Some? ==> constants == InternAll(old(constants), NodeStringsAll(ss))
      ensures r.Some? ==> Registered(old(nodeCount), old(nodeIds), IdsAll(r.value))
      ensures r.Some? ==>
        (forall k :: 0 <= k < |ss| ==> NodeSourceOk(T(), ss[k])) && NewIds(old(nodeIds), SourceIdsAll(hash, ss))
      ensures r.None? ==>
        || !Roomy(old(constants), NodeStringsAll(ss)) || (exists k :: 0 <= k < |ss| && !NodeSourceOk(T(), ss[k]))
        || !NewIds(old(nodeIds), SourceIdsAll(hash, ss))
      decreases ss, 0
    {
      hide IdsOf, NodeMeans, NodeStrings, NodeSourceOk, Roomy, InternAll, NodeStringsAll;
      var result: seq<UiNode> := [];
      ghost var count0, seen0 := nodeCount, nodeIds;
      ghost var strings := NodeStringsAll(ss);
      assert ss[0..] == ss;
      for k := 0 to |ss|
        invariant Valid()
        invariant |result| == k && forall j :: 0 <= j < k ==> NodeMeans(T(), constants, hash, ss[j], result[j])
        invariant Registered(count0, seen0, IdsAll(result))
        invariant IdsAll(result) == SourceIdsAll(hash, ss[..k])
        invariant forall j :: 0 <= j < k ==> NodeSourceOk(T(), ss[j])
        invariant InternAll(constants, NodeStringsAll(ss[k..])) == InternAll(old(constants), strings)
      {
        ghost var before := constants;
        NewIdsSplit(seen0, hash, ss, k);
        NodeStringsStep(ss, k);
        InternNext(old(constants), strings, constants, NodeStrings(ss[k]), NodeStringsAll(ss[k + 1..]));
        var node := Node(ss[k]);
        if node.None? {
          return None;
        }
        CompiledIds(T(), constants, hash, ss[k], node.value);
        IdsAllConcat(result, [node.value]);
        forall j | 0 <= j < k ensures NodeMeans(T(), constants, hash, ss[j], result[j]) {
          NodeStays(T(), before, constants, hash, ss[j], result[j]);
        }
        RegisteredMore(count0, seen0, result, node.value);
        result := result + [node.value];
      }
      NothingLeft(constants);
      assert ss[|ss|..] == [];
      assert ss[..|ss|] == ss;
      r := Some(result);
    }

    lemma {:induction false} NodeStringsStep(ss: seq<SourceNode>, k: nat)
      requires k < |ss|
      ensures NodeStringsAll(ss[k..]) == NodeStrings(ss[k]) + NodeStringsAll(ss[k + 1..])
    {
      hide NodeStrings;
      assert ss[k..][1..] == ss[k + 1..];
    }

    lemma {:induction false} SourceIdsConcat(hash: Bytes -> u32, a: seq<SourceNode>, b: seq<SourceNode>)
      ensures SourceIdsAll(hash, a + b) == SourceIdsAll(hash, a) + SourceIdsAll(hash, b)
    {
      if a == [] {
        assert a + b == b;
      } else {
        assert (a + b)[1..] == a[1..] + b;
        SourceIdsConcat(hash, a[1..], b);
      }
    }

    // A node whose IDs clash with those before it makes the whole list clash.
    lemma {:induction false} NewIdsSplit(seen: set<u32>, hash: Bytes -> u32, ss: seq<SourceNode>, k: nat)
      requires k < |ss|
      ensures SourceIdsAll(hash, ss[..k + 1]) == SourceIdsAll(hash, ss[..k]) + SourceIds(hash, ss[k])
      ensures NewIds(seen, SourceIdsAll(hash, ss)) ==>
        NewIds(seen + SetOf(SourceIdsAll(hash, ss[..k])), SourceIds(hash, ss[k]))
    {
      var a, b, c := SourceIdsAll(hash, ss[..k]), SourceIds(hash, ss[k]), SourceIdsAll(hash, ss[k + 1..]);
      assert ss[..k + 1] == ss[..k] + [ss[k]] && ss == ss[..k + 1] + ss[k + 1..];
      SourceIdsConcat(hash, ss[..k], [ss[k]]);
      SourceIdsConcat(hash, ss[..k + 1], ss[k + 1..]);
      assert SourceIdsAll(hash, [ss[k]]) == b + SourceIdsAll(hash, []) == b;
      DistinctConcat(a + b, c);
      DistinctConcat(a, b);
      if NewIds(seen, (a + b) + c) {
        forall x | x in b ensures x !in seen && x !in a {
          assert x in (a + b) + c;
        }
      }
    }

    lemma {:induction false} RegisteredMore(count: nat, seen: set<u32>, nodes: seq<UiNode>, n: UiNode)
      requires Distinct(IdsAll(nodes)) && (forall x :: x in IdsAll(nodes) ==> x !in seen)
      requires Registered(count + |IdsAll(nodes)|, seen + SetOf(IdsAll(nodes)), Ids(n))
      ensures Registered(count, seen, IdsAll(nodes + [n]))
    {
      IdsAllConcat(nodes, [n]);
      assert IdsAll([n]) == Ids(n) + IdsAll([]) == Ids(n);
      DistinctConcat(IdsAll(nodes), Ids(n));
    }

    // -------- the rule for handlers that read the event's value --------

    method Visit(n: SourceNode, bindings: map<Bytes, seq<EventType>>) returns (r: map<Bytes, seq<EventType>>)
      ensures r.Keys == bindings.Keys
      ensures forall h :: h in r ==> r[h] == bindings[h] + BoundEvents(n, h)
      decreases n, 1
    {
      r := bindings;
      for k := 0 to |n.events|
        invariant r.Keys == bindings.Keys
        invariant forall h :: h in r ==> r[h] == bindings[h] + EventsFor(n.events[..k], h)
      {
        var e := n.events[k];
        EventsForStep(n.events, k);
        if e.handler in r {
          r := r[e.handler := r[e.handler] + [e.event]];
        }
      }
      assert n.events[..|n.events|] == n.events;
      var own := r;
      r := VisitAll(n.children, own);
    }

    method VisitAll(ns: seq<SourceNode>, bindings: map<Bytes, seq<EventType>>) returns (r: map<Bytes, seq<EventType>>)
      ensures r.Keys == bindings.Keys
      ensures forall h :: h in r ==> r[h] == bindings[h] + BoundEventsAll(ns, h)
      decreases ns, 0
    {
      r := bindings;
      for k := 0 to |ns|
        invariant r.Keys == bindings.Keys
        invariant forall h :: h in r ==> r[h] == bindings[h] + BoundEventsAll(ns[..k], h)
      {
        var before := r;
        r := Visit(ns[k], before);
        forall h | h in r ensures r[h] == bindings[h] + BoundEventsAll(ns[..k + 1], h) {
          BoundStep(ns, k, h);
        }
      }
      assert ns[..|ns|] == ns;
    }

    lemma {:induction false} EventsForStep(es: seq<SourceEvent>, k: nat)
      requires k < |es|
      ensures forall h ::
        EventsFor(es[..k + 1], h) == EventsFor(es[..k], h) + (if es[k].handler == h then [es[k].event] else [])
      decreases k
    {
      forall h ensures EventsFor(es[..k + 1], h) == EventsFor(es[..k], h) + (if es[k].handler == h then [es[k].event] else []) {
        EventsForOne(es, k, h);
      }
    }

    lemma {:induction false} EventsForOne(es: seq<SourceEvent>, k: nat, h: Bytes)
      requires k < |es|
      ensures EventsFor(es[..k + 1], h) == EventsFor(es[..k], h) + (if es[k].handler == h then [es[k].event] else [])
      decreases k
    {
      if k == 0 {
        assert es[..1][1..] == [];
      } else {
        EventsForOne(es[1..], k - 1, h);
        assert es[..k + 1][1..] == es[1..][..k] && es[..k][1..] == es[1..][..k - 1];
      }
    }

    lemma {:induction false} BoundStep(ns: seq<SourceNode>, k: nat, h: Bytes)
      requires k < |ns|
      ensures BoundEventsAll(ns[..k + 1], h) == BoundEventsAll(ns[..k], h) + BoundEvents(ns[k], h)
      decreases k
    {
      hide BoundEvents;
      if k == 0 {
        assert ns[..1][1..] == [];
      } else {
        BoundStep(ns[1..], k - 1, h);
        assert ns[..k + 1][1..] == ns[1..][..k] && ns[..k][1..] == ns[1..][..k - 1];
      }
    }

    // Accepts exactly the sources in which every handler that reads the event's value
    // is bound, only to changes and submissions, and is not the entry handler.
    method ValidateEventValueBindings() returns (ok: bool)
      requires eventValueHandlers == ReaderNames(source.handlers)
      ensures ok <==> BindingRule(source)
    {
      if eventValueHandlers == {} {
        return true;
      }
      if source.entryHandler.Some? && source.entryHandler.value in eventValueHandlers {
        return false;
      }
      var bindings: map<Bytes, seq<EventType>> := map h | h in eventValueHandlers :: [];
      bindings := VisitAll(Roots(source.pages), bindings);
      forall h | h in eventValueHandlers ensures bindings[h] == BoundEventsAll(Roots(source.pages), h) {
        assert [] + BoundEventsAll(Roots(source.pages), h) == BoundEventsAll(Roots(source.pages), h);
      }
      hide BoundEventsAll, ReaderNames, ValueEvents;
      var left := eventValueHandlers;
      while left != {}
        invariant left <= eventValueHandlers
        invariant forall h :: h in eventValueHandlers - left ==> bindings[h] != [] && ValueEvents(bindings[h])
        decreases |left|
      {
        var h :| h in left;
        if bindings[h] == [] || !ValueEvents(bindings[h]) {
          return false;
        }
        left := left - {h};
      }
      ok := true;
    }
  }
}

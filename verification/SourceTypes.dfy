/** Stack typing of a description's instructions, before any index is chosen, and its
    agreement with both handler checkers on the compiled code. */
module SourceTypes {
  import opened Basics
  import opened Bytecode
  import opened HandlerVerifier
  import opened Templates
  import opened Dsl

  // The type of a named state.
  function StateType(t: Tables, types: seq<ValueType>, name: Bytes): Option<ValueType>
    requires |types| == |t.states|
  {
    match NameIndex(t.states, name)
    case None => None
    case Some(i) => Some(types[i])
  }

  // The effect of an instruction on a stack of types; None is a type error.
  function SourceTransfer(t: Tables, types: seq<ValueType>, s: SourceInstruction, k: Stack): Option<Stack>
    requires |types| == |t.states|
  {
    match s
    case Const(v) => Some(k + [TypeOf(v)])
    case GetState(n) =>
      var found := StateType(t, types, n);
      if found.None? then None else Some(k + [found.value])
    case SetState(n) => if k != [] && StateType(t, types, n) == Some(k[|k| - 1]) then Some(k[..|k| - 1]) else None
    case Add =>
      if |k| >= 2 && k[|k| - 1] == k[|k| - 2] == Integer then Some(k[..|k| - 2] + [Integer]) else None
    case Compare => if |k| >= 2 && k[|k| - 1] == k[|k| - 2] then Some(k[..|k| - 2] + [Boolean]) else None
    case Goto(_) => Some(k)
    case GotoUnless(_) => if k != [] && k[|k| - 1] == Boolean then Some(k[..|k| - 1]) else None
    case Call(_, _, n) => if |k| >= n then Some(k[..|k| - n] + [String]) else None
    case CallLater(_, _, n) => if |k| >= n then Some(k[..|k| - n] + [String]) else None
    case Discard => if k != [] then Some(k[..|k| - 1]) else None
    case Show(_) => Some(k)
    case Stop => if k == [] then Some(k) else None
    case Input => Some(k + [String])
  }

  function SourceSuccessors(s: SourceInstruction, pc: nat): seq<nat> {
    match s
    case Goto(d) => [d]
    case GotoUnless(d) => [d, pc + 1]
    case Stop => []
    case _ => [pc + 1]
  }

  // The instruction at pc is well typed under T, keeps the bound if there is one, and
  // hands its stack on.
  ghost predicate StepTypedAs(t: Tables, types: seq<ValueType>, bound: Option<nat>, body: seq<SourceInstruction>, T: Typing,
                           pc: nat)
    requires |types| == |t.states| && |T| == |body| && pc < |body|
  {
    T[pc].Some? ==>
      var after := SourceTransfer(t, types, body[pc], T[pc].value);
      && after.Some?
      && (bound.Some? ==> |after.value| <= bound.value)
      && forall k :: 0 <= k < |SourceSuccessors(body[pc], pc)| ==>
           var next := SourceSuccessors(body[pc], pc)[k];
           next < |body| && T[next] == after
  }

  ghost predicate TypedAs(t: Tables, types: seq<ValueType>, bound: Option<nat>, body: seq<SourceInstruction>, T: Typing)
    requires |types| == |t.states|
  {
    && 0 < |T| == |body|
    && T[0] == Some([])
    && forall pc :: 0 <= pc < |body| ==> StepTypedAs(t, types, bound, body, T, pc)
  }

  // Some table of stacks starts empty and types every instruction it reaches.
  ghost predicate WellTyped(t: Tables, types: seq<ValueType>, bound: Option<nat>, body: seq<SourceInstruction>) {
    |types| == |t.states| && exists T: Typing :: TypedAs(t, types, bound, body, T)
  }

  function BoundOf(m: Module, p: Policy): Option<nat> {
    if p.RuntimePolicy? then Some(m.limits.maxStack) else None
  }

  // m has the tables' states and, for the runtime's checker, their pages.
  ghost predicate Under(t: Tables, m: Module, p: Policy) {
    Distinct(t.states) && |m.initialState| == |t.states| && (p.RuntimePolicy? ==> |m.pages| == |t.pages|)
  }

  lemma {:induction false} NamedIndex(names: seq<Bytes>, k: nat, name: Bytes)
    requires Distinct(names) && Named(names, k, name)
    ensures NameIndex(names, name) == Some(k)
  {
  }

  lemma {:induction false} TransferAgrees(t: Tables, m: Module, p: Policy, s: SourceInstruction, i: Instruction,
      pc: nat, k: Stack)
    requires Under(t, m, p) && InstructionMeans(t, m.constants, s, i) && OperandsOk(m, i)
    ensures Transfer(m, i, k) == SourceTransfer(t, TypesOf(m.initialState), s, k)
    ensures Successors(i, pc) == SourceSuccessors(s, pc)
    ensures p.RuntimePolicy? && i.Render? ==> i.page < |m.pages|
  {
    match s
    case GetState(n) => NamedIndex(t.states, i.slot, n);
    case SetState(n) => NamedIndex(t.states, i.slot, n);
    case _ =>
  }

  lemma {:induction false} TypedAsAgrees(t: Tables, m: Module, p: Policy, body: seq<SourceInstruction>, code: Code, T: Typing)
    requires Under(t, m, p) && CodeMeans(t, m.constants, body, code) && Operands(m, code)
    ensures Consistent(m, p, code, T) <==> TypedAs(t, TypesOf(m.initialState), BoundOf(m, p), body, T)
  {
    if |T| == |body| {
      forall pc | 0 <= pc < |body|
        ensures StepTyped(m, p, code, T, pc) <==> StepTypedAs(t, TypesOf(m.initialState), BoundOf(m, p), body, T, pc)
      {
        assert InstructionMeans(t, m.constants, body[pc], code[pc]);
        hide Under, InstructionMeans, Transfer, SourceTransfer, Successors, SourceSuccessors, OperandsOk;
        if T[pc].Some? {
          TransferAgrees(t, m, p, body[pc], code[pc], pc, T[pc].value);
        }
      }
    }
  }

  // A checker accepts the types of compiled code exactly when the description is well
  // typed, whatever indices the compiler chose.
  lemma {:induction false} TypingAgrees(t: Tables, m: Module, p: Policy, body: seq<SourceInstruction>, code: Code)
    requires Under(t, m, p) && CodeMeans(t, m.constants, body, code) && Operands(m, code)
    ensures Typable(m, p, code) <==> WellTyped(t, TypesOf(m.initialState), BoundOf(m, p), body)
  {
    forall T: Typing
      ensures Consistent(m, p, code, T) <==> TypedAs(t, TypesOf(m.initialState), BoundOf(m, p), body, T)
    {
      TypedAsAgrees(t, m, p, body, code, T);
    }
  }
}

/** The two handler checkers: the runtime's worklist over an array of optional
    stacks, and the compiler's over a dictionary.  Both are proved to decide the
    existence of a consistent stack typing. */
module HandlerVerifier {
  import opened Basics
  import opened Bytecode

  // Operand stacks of value types; the top is the last element.
  type Stack = seq<ValueType>

  // The effect of one instruction on a stack of types; None is a rejection.
  function Transfer(m: Module, i: Instruction, s: Stack): Option<Stack>
    requires OperandsOk(m, i)
  {
    match i
    case Constant(v) => Some(s + [TypeOf(v)])
    case EventValue => Some(s + [String])
    case StateGet(slot) => Some(s + [TypeOf(m.initialState[slot])])
    case StateSet(slot) =>
      if |s| >= 1 && s[|s| - 1] == TypeOf(m.initialState[slot]) then Some(s[..|s| - 1]) else None
    case IntegerAdd =>
      if |s| >= 2 && s[|s| - 1] == Integer && s[|s| - 2] == Integer
      then Some(s[..|s| - 2] + [Integer]) else None
    case Equal =>
      if |s| >= 2 && s[|s| - 1] == s[|s| - 2] then Some(s[..|s| - 2] + [Boolean]) else None
    case JumpIfFalse(_) =>
      if |s| >= 1 && s[|s| - 1] == Boolean then Some(s[..|s| - 1]) else None
    case Effect(_, _, n) => if |s| >= n then Some(s[..|s| - n] + [String]) else None
    case AsyncEffect(_, _, n) => if |s| >= n then Some(s[..|s| - n] + [String]) else None
    case Pop => if |s| >= 1 then Some(s[..|s| - 1]) else None
    case Render(page) => Some(s)
    case Halt => if s == [] then Some(s) else None
    case Jump(_) => Some(s)
  }

  function Successors(i: Instruction, pc: nat): seq<nat> {
    match i
    case Jump(t) => [t]
    case JumpIfFalse(t) => [t, pc + 1]
    case Halt => []
    case _ => [pc + 1]
  }

  // What distinguishes the two checkers: the runtime bounds the stack after every
  // instruction and the page a Render names; the compiler does neither.
  datatype Policy = RuntimePolicy | CompilerPolicy

  predicate Permitted(m: Module, p: Policy, i: Instruction, after: Stack) {
    p.RuntimePolicy? ==> |after| <= m.limits.maxStack && (i.Render? ==> i.page < |m.pages|)
  }

  type Typing = seq<Option<Stack>>

  // The instruction at pc is well typed under T and passes its stack on.
  ghost predicate StepTyped(m: Module, p: Policy, code: Code, T: Typing, pc: nat)
    requires |T| == |code| && pc < |code|
    requires OperandsOk(m, code[pc])
  {
    T[pc].Some? ==>
      var after := Transfer(m, code[pc], T[pc].value);
      && after.Some?
      && Permitted(m, p, code[pc], after.value)
      && forall k :: 0 <= k < |Successors(code[pc], pc)| ==>
           var t := Successors(code[pc], pc)[k];
           t < |code| && T[t] == after
  }

  ghost predicate Operands(m: Module, code: Code) {
    forall pc :: 0 <= pc < |code| ==> OperandsOk(m, code[pc])
  }

  ghost predicate Consistent(m: Module, p: Policy, code: Code, T: Typing)
    requires Operands(m, code)
  {
    && 0 < |T| == |code|
    && T[0] == Some([])
    && forall pc :: 0 <= pc < |code| ==> StepTyped(m, p, code, T, pc)
  }

  ghost predicate Typable(m: Module, p: Policy, code: Code)
    requires Operands(m, code)
  {
    exists T: Typing :: Consistent(m, p, code, T)
  }

  // T assigns nothing that U does not assign as well.
  ghost predicate Within(T: Typing, U: Typing) {
    |T| == |U| && forall pc :: 0 <= pc < |T| ==> (T[pc].Some? ==> T[pc] == U[pc])
  }

  ghost predicate Least(m: Module, p: Policy, code: Code, T: Typing)
    requires Operands(m, code)
  {
    && Consistent(m, p, code, T)
    && forall U: Typing :: Consistent(m, p, code, U) ==> Within(T, U)
  }

  // -------- the runtime's checker --------

  // The state of the worklist: typed so far, pending, and finished.
  ghost predicate Progress(m: Module, p: Policy, code: Code, T: Typing,
                           queue: seq<nat>, done: set<nat>)
    requires Operands(m, code)
  {
    && 0 < |T| == |code|
    && T[0] == Some([])
    && (forall k :: 0 <= k < |queue| ==> queue[k] < |code| && queue[k] !in done)
    && Distinct(queue)
    && (forall pc :: pc in done ==> 0 <= pc < |code| && T[pc].Some? && StepTyped(m, p, code, T, pc))
    && (forall pc :: 0 <= pc < |code| ==> (T[pc].Some? <==> pc in done || pc in queue))
    && (forall U: Typing :: Consistent(m, p, code, U) ==> Within(T, U))
  }

  // The set of indices not yet finished shrinks; it bounds the number of rounds.
  function Indices(n: nat): (r: set<nat>)
    ensures forall i: nat :: i in r <==> i < n
  {
    if n == 0 then {} else Indices(n - 1) + {n - 1}
  }

  // The stack assigned at pc can be handed on without contradicting T.
  ghost predicate Passes(m: Module, p: Policy, code: Code, T: Typing, pc: nat)
    requires |T| == |code| && pc < |code| && T[pc].Some?
    requires OperandsOk(m, code[pc])
  {
    var after := Transfer(m, code[pc], T[pc].value);
    && after.Some?
    && Permitted(m, p, code[pc], after.value)
    && forall k :: 0 <= k < |Successors(code[pc], pc)| ==> Receives(T, Successors(code[pc], pc)[k], after)
  }

  predicate Receives(T: Typing, t: nat, after: Option<Stack>) {
    t < |T| && (T[t].Some? ==> T[t] == after)
  }

  lemma {:induction false} Passable(m: Module, p: Policy, code: Code, T: Typing, pc: nat, U: Typing)
    requires Operands(m, code)
    requires |T| == |code| && pc < |code| && T[pc].Some?
    requires Consistent(m, p, code, U) && Within(T, U)
    ensures Passes(m, p, code, T, pc)
  {
    assert StepTyped(m, p, code, U, pc);
    var after := Transfer(m, code[pc], T[pc].value);
    forall k | 0 <= k < |Successors(code[pc], pc)|
      ensures Receives(T, Successors(code[pc], pc)[k], after)
    {
      var t := Successors(code[pc], pc)[k];
      assert t < |code| && U[t] == after;
    }
  }

  // If an assigned stack cannot be passed on, no consistent typing exists.
  lemma {:induction false} Stuck(m: Module, p: Policy, code: Code, T: Typing, pc: nat)
    requires Operands(m, code)
    requires |T| == |code| && pc < |code| && T[pc].Some?
    requires forall U: Typing :: Consistent(m, p, code, U) ==> Within(T, U)
    requires !Passes(m, p, code, T, pc)
    ensures !Typable(m, p, code)
  {
    if Typable(m, p, code) {
      var U: Typing :| Consistent(m, p, code, U);
      Passable(m, p, code, T, pc, U);
    }
  }

  // T0 extended by handing `after` to each of the targets seen so far.
  ghost predicate Spread(T0: Typing, T: Typing, rest: seq<nat>, queue: seq<nat>,
                         targets: seq<nat>, after: Option<Stack>) {
    && |T| == |T0|
    && after.Some?
    && (forall i :: 0 <= i < |T| ==> (T0[i].Some? ==> T[i] == T0[i]))
    && (forall i :: 0 <= i < |T| ==> (T0[i].None? && T[i].Some? ==> T[i] == after && i in targets))
    && (forall k :: 0 <= k < |targets| ==> targets[k] < |T| && T[targets[k]] == after)
    && rest <= queue
    && Distinct(queue)
    && (forall k :: 0 <= k < |queue| ==> queue[k] < |T| && T[queue[k]].Some?)
    && (forall k :: |rest| <= k < |queue| ==> T0[queue[k]].None?)
    && (forall i :: 0 <= i < |T| ==> (T0[i].None? && T[i].Some? ==> i in queue))
  }

  lemma {:induction false} Initial(m: Module, p: Policy, code: Code, T: Typing)
    requires Operands(m, code)
    requires 0 < |T| == |code| && T[0] == Some([])
    requires forall i :: 0 < i < |T| ==> T[i] == None
    ensures Progress(m, p, code, T, [0], {})
  {
  }

  lemma {:induction false} Remaining(m: Module, p: Policy, code: Code, T: Typing, queue: seq<nat>, done: set<nat>)
    requires Operands(m, code)
    requires Progress(m, p, code, T, queue, done) && |queue| > 0
    ensures Distinct(queue[1..])
    ensures forall k :: 0 <= k < |queue[1..]| ==> queue[1..][k] < |T| && T[queue[1..][k]].Some?
  {
    forall k | 0 <= k < |queue[1..]| ensures queue[1..][k] < |T| && T[queue[1..][k]].Some? {
      assert queue[1..][k] == queue[k + 1] && queue[k + 1] in queue;
    }
  }

  lemma {:induction false} Advance(m: Module, p: Policy, code: Code, T0: Typing, T: Typing,
                queue0: seq<nat>, queue: seq<nat>, done: set<nat>, pc: nat, after: Option<Stack>)
    requires Operands(m, code)
    requires |queue0| > 0 && queue0[0] == pc
    requires Progress(m, p, code, T0, queue0, done)
    requires T0[pc].Some? && after == Transfer(m, code[pc], T0[pc].value)
    requires after.Some? && Permitted(m, p, code[pc], after.value)
    requires Spread(T0, T, queue0[1..], queue, Successors(code[pc], pc), after)
    ensures Progress(m, p, code, T, queue, done + {pc})
  {
    var targets := Successors(code[pc], pc);
    assert T[0] == Some([]);
    forall U: Typing | Consistent(m, p, code, U) ensures Within(T, U) {
      assert Within(T0, U) && StepTyped(m, p, code, U, pc);
      forall i | 0 <= i < |T| && T[i].Some? ensures T[i] == U[i] {
        if T0[i].None? {
          var k :| 0 <= k < |targets| && targets[k] == i;
          assert U[targets[k]] == after;
        }
      }
    }
    forall q | q in done + {pc}
      ensures 0 <= q < |code| && T[q].Some? && StepTyped(m, p, code, T, q)
    {
      assert T0[q].Some?;
      if q != pc {
        assert StepTyped(m, p, code, T0, q);
      }
    }
    forall k | 0 <= k < |queue| ensures queue[k] !in done + {pc} {
      if k < |queue0| - 1 {
        assert queue[k] == queue0[1..][k] == queue0[k + 1];
      } else {
        assert T0[queue[k]].None?;
      }
    }
    forall i | 0 <= i < |code|
      ensures T[i].Some? <==> i in done + {pc} || i in queue
    {
      if T0[i].Some? && i !in done && i != pc {
        assert i in queue0;
        var k :| 0 <= k < |queue0| && queue0[k] == i;
        assert queue0[1..][k - 1] == i && queue[k - 1] == i;
      }
    }
  }

  lemma {:induction false} Finished(m: Module, p: Policy, code: Code, T: Typing, done: set<nat>)
    requires Operands(m, code)
    requires Progress(m, p, code, T, [], done)
    ensures Least(m, p, code, T) && Typable(m, p, code)
  {
    forall pc | 0 <= pc < |code| ensures StepTyped(m, p, code, T, pc) {
      if T[pc].Some? {
        assert pc in done;
      }
    }
    assert Consistent(m, p, code, T);
  }

  // Hands one stack to every successor, typing and queueing the new ones; fails at
  // the first that is out of range or already typed differently.
  method Propagate(incoming: array<Option<Stack>>, rest: seq<nat>, targets: seq<nat>,
                   after: Option<Stack>)
    returns (ok: bool, queue: seq<nat>)
    requires after.Some? && Distinct(rest)
    requires forall k :: 0 <= k < |rest| ==> rest[k] < incoming.Length && incoming[rest[k]].Some?
    modifies incoming
    ensures ok ==> Spread(old(incoming[..]), incoming[..], rest, queue, targets, after)
    ensures ok <==> forall k :: 0 <= k < |targets| ==> Receives(old(incoming[..]), targets[k], after)
  {
    queue := rest;
    ghost var T0 := incoming[..];
    for k := 0 to |targets|
      invariant Spread(T0, incoming[..], rest, queue, targets[..k], after)
      invariant forall j :: 0 <= j < k ==> Receives(T0, targets[j], after)
    {
      var target := targets[k];
      ghost var T := incoming[..];
      if target >= incoming.Length || (incoming[target].Some? && incoming[target] != after) {
        assert !Receives(T0, targets[k], after);
        return false, queue;
      }
      assert targets[..k + 1] == targets[..k] + [target];
      if incoming[target].None? {
        incoming[target] := after;
        queue := queue + [target];
      }
    }
    assert targets[..|targets|] == targets;
    return true, queue;
  }

  // The runtime accepts exactly the typable handlers. It takes each program counter from
  // its queue at most once, and on acceptance exactly those that its table types.
  method ValidateHandler(m: Module, code: Code) returns (accepted: bool, ghost order: seq<nat>)
    requires Operands(m, code)
    ensures accepted <==> 0 < |code| <= MAX_HANDLER && Typable(m, RuntimePolicy, code)
    ensures Distinct(order) && forall k :: 0 <= k < |order| ==> order[k] < |code|
    ensures accepted ==> exists T: Typing ::
      Least(m, RuntimePolicy, code, T) && forall pc: nat :: pc in order <==> pc < |code| && T[pc].Some?
  {
    order := [];
    if |code| == 0 || |code| > MAX_HANDLER {
      return false, order;
    }
    var incoming := new Option<Stack>[|code|](_ => None);
    incoming[0] := Some([]);
    var queue: seq<nat> := [0];
    ghost var done: set<nat> := {};
    Initial(m, RuntimePolicy, code, incoming[..]);
    while |queue| > 0
      invariant incoming.Length == |code|
      invariant Progress(m, RuntimePolicy, code, incoming[..], queue, done)
      invariant Distinct(order) && forall pc :: pc in order <==> pc in done
      invariant forall k :: 0 <= k < |order| ==> order[k] < |code|
      decreases Indices(|code|) - done
    {
      var pc := queue[0];
      assert pc in queue;
      ghost var T0 := incoming[..];
      assert T0[pc].Some?;
      var after := Transfer(m, code[pc], incoming[pc].value);
      if after.None? || !Permitted(m, RuntimePolicy, code[pc], after.value) {
        Stuck(m, RuntimePolicy, code, T0, pc);
        return false, order;
      }
      Remaining(m, RuntimePolicy, code, T0, queue, done);
      var ok, extended := Propagate(incoming, queue[1..], Successors(code[pc], pc), after);
      if !ok {
        Stuck(m, RuntimePolicy, code, T0, pc);
        return false, order;
      }
      Advance(m, RuntimePolicy, code, T0, incoming[..], queue, extended, done, pc, after);
      queue := extended;
      done := done + {pc};
      order := order + [pc];
    }
    assert queue == [];
    Finished(m, RuntimePolicy, code, incoming[..], done);
    return true, order;
  }

  // -------- the compiler's checker --------

  ghost function AsTyping(incoming: map<nat, Stack>, n: nat): (T: Typing)
    ensures |T| == n
  {
    seq(n, pc requires 0 <= pc < n => if pc in incoming then Some(incoming[pc]) else None)
  }

  ghost predicate HasHalt(code: Code) {
    exists pc :: 0 <= pc < |code| && code[pc].Halt?
  }

  // The dictionary form of Propagate.
  method Extend(incoming: map<nat, Stack>, n: nat, rest: seq<nat>,
                targets: seq<nat>, after: Stack)
    returns (ok: bool, extended: map<nat, Stack>, queue: seq<nat>)
    requires Distinct(rest)
    requires forall pc :: pc in incoming ==> pc < n
    requires forall k :: 0 <= k < |rest| ==> rest[k] in incoming
    ensures forall pc :: pc in extended ==> pc < n
    ensures ok ==> Spread(AsTyping(incoming, n), AsTyping(extended, n), rest, queue, targets, Some(after))
    ensures ok <==> forall k :: 0 <= k < |targets| ==> Receives(AsTyping(incoming, n), targets[k], Some(after))
  {
    extended := incoming;
    queue := rest;
    ghost var T0 := AsTyping(incoming, n);
    for k := 0 to |targets|
      invariant forall pc :: pc in extended ==> pc < n
      invariant Spread(T0, AsTyping(extended, n), rest, queue, targets[..k], Some(after))
      invariant forall j :: 0 <= j < k ==> Receives(T0, targets[j], Some(after))
    {
      var target := targets[k];
      ghost var T := AsTyping(extended, n);
      if target >= n || (target in extended && extended[target] != after) {
        assert !Receives(T0, targets[k], Some(after));
        return false, extended, queue;
      }
      assert targets[..k + 1] == targets[..k] + [target];
      if target !in extended {
        SpreadOne(T0, T, rest, queue, targets[..k], Some(after), target);
        extended := extended[target := after];
        queue := queue + [target];
        assert AsTyping(extended, n) == T[target := Some(after)];
      }
    }
    assert targets[..|targets|] == targets;
    return true, extended, queue;
  }

  method FindHalt(code: Code) returns (found: bool)
    ensures found <==> HasHalt(code)
  {
    for pc := 0 to |code|
      invariant forall q :: 0 <= q < pc ==> !code[q].Halt?
    {
      if code[pc].Halt? {
        return true;
      }
    }
    return false;
  }

  // The compiler accepts exactly the handlers that contain a Halt and are typable
  // without a stack bound, and its table is then the least typing.
  method CheckHandler(m: Module, code: Code) returns (accepted: bool, incoming: map<nat, Stack>)
    requires Operands(m, code) && |code| > 0
    ensures accepted <==> HasHalt(code) && Typable(m, CompilerPolicy, code)
    ensures accepted ==> Least(m, CompilerPolicy, code, AsTyping(incoming, |code|))
  {
    incoming := map[0 := []];
    var queue: seq<nat> := [0];
    ghost var done: set<nat> := {};
    Initial(m, CompilerPolicy, code, AsTyping(incoming, |code|));
    while |queue| > 0
      invariant Progress(m, CompilerPolicy, code, AsTyping(incoming, |code|), queue, done)
      invariant forall pc :: pc in incoming ==> pc < |code|
      decreases Indices(|code|) - done
    {
      var pc := queue[0];
      assert pc in queue;
      ghost var T0 := AsTyping(incoming, |code|);
      assert T0[pc].Some?;
      var after := Transfer(m, code[pc], incoming[pc]);
      if after.None? {
        Stuck(m, CompilerPolicy, code, T0, pc);
        return false, incoming;
      }
      Remaining(m, CompilerPolicy, code, T0, queue, done);
      var ok, extended, longer :=
        Extend(incoming, |code|, queue[1..], Successors(code[pc], pc), after.value);
      if !ok {
        Stuck(m, CompilerPolicy, code, T0, pc);
        return false, incoming;
      }
      Advance(m, CompilerPolicy, code, T0, AsTyping(extended, |code|), queue, longer, done, pc, after);
      incoming, queue := extended, longer;
      done := done + {pc};
    }
    assert queue == [];
    Finished(m, CompilerPolicy, code, AsTyping(incoming, |code|), done);
    accepted := FindHalt(code);
  }

  lemma {:induction false} SpreadOne(T0: Typing, T: Typing, rest: seq<nat>, queue: seq<nat>,
             targets: seq<nat>, after: Option<Stack>, target: nat)
    requires Spread(T0, T, rest, queue, targets, after)
    requires target < |T| && T[target].None?
    ensures Spread(T0, T[target := after], rest, queue + [target], targets + [target], after)
  {
  }

  // -------- agreement --------

  ghost predicate PagesNamed(m: Module, code: Code) {
    forall pc :: 0 <= pc < |code| ==> (code[pc].Render? ==> code[pc].page < |m.pages|)
  }

  // Every stack that T hands on fits the runtime's budget.
  ghost predicate Bounded(m: Module, code: Code, T: Typing)
    requires Operands(m, code) && |T| == |code|
  {
    forall pc :: 0 <= pc < |code| && T[pc].Some? ==>
      var after := Transfer(m, code[pc], T[pc].value);
      after.Some? ==> |after.value| <= m.limits.maxStack
  }

  // What the compiler rejects for its types, the runtime rejects too; what the
  // compiler accepts with table T, the runtime accepts exactly when T's stacks fit
  // max_stack.
  lemma {:induction false} CheckersAgree(m: Module, code: Code)
    requires Operands(m, code) && PagesNamed(m, code)
    ensures Typable(m, RuntimePolicy, code) ==> Typable(m, CompilerPolicy, code)
    ensures forall T: Typing :: Least(m, CompilerPolicy, code, T) ==>
      (Typable(m, RuntimePolicy, code) <==> Bounded(m, code, T))
  {
    forall U: Typing | Consistent(m, RuntimePolicy, code, U)
      ensures Consistent(m, CompilerPolicy, code, U) && Bounded(m, code, U)
    {
      forall pc | 0 <= pc < |code|
        ensures StepTyped(m, CompilerPolicy, code, U, pc)
        ensures U[pc].Some? ==> |Transfer(m, code[pc], U[pc].value).value| <= m.limits.maxStack
      {
        assert StepTyped(m, RuntimePolicy, code, U, pc);
      }
    }
    forall T: Typing | Least(m, CompilerPolicy, code, T)
      ensures Typable(m, RuntimePolicy, code) <==> Bounded(m, code, T)
    {
      if Bounded(m, code, T) {
        forall pc | 0 <= pc < |code| ensures StepTyped(m, RuntimePolicy, code, T, pc) {
          assert StepTyped(m, CompilerPolicy, code, T, pc);
        }
        assert Consistent(m, RuntimePolicy, code, T);
      }
      if Typable(m, RuntimePolicy, code) {
        var U: Typing :| Consistent(m, RuntimePolicy, code, U);
        assert Within(T, U) && Bounded(m, code, U);
      }
    }
  }
}

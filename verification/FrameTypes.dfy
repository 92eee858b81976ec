/** Type soundness, one instruction at a time: running frames match the verifier's
    typing, suspended frames do once their string result is pushed, and no internal
    error is raised. */
module FrameTypes {
  import opened Basics
  import opened Bytecode
  import opened HandlerVerifier
  import opened UiTree
  import opened StateCodec
  import opened Interpreter

  // What a successful load establishes.
  ghost predicate Loaded(m: Module) {
    && LimitsOk(m.limits)
    && HandlersOk(m)
    && (forall h :: 0 <= h < |m.handlers| ==> Typable(m, RuntimePolicy, m.handlers[h]))
    && PagesOk(m)
    && StateOk(m)
    && StateSize(m.initialState) <= m.limits.maxStateBytes
    && m.entryPage < |m.pages|
    && (m.entryHandler.Some? ==> m.entryHandler.value < |m.handlers|)
  }

  // Every consistent typing of handler h gives pc the stack s; so does the table that
  // the verifier computes.
  ghost predicate TypedAt(m: Module, h: nat, pc: nat, s: Stack)
    requires Loaded(m)
  {
    && h < |m.handlers| && pc < |m.handlers[h]|
    && forall T: Typing :: Consistent(m, RuntimePolicy, m.handlers[h], T) ==> T[pc] == Some(s)
  }

  ghost predicate FrameTyped(m: Module, f: Frame)
    requires Loaded(m)
  {
    TypedAt(m, f.handler, f.pc, TypesOf(f.stack))
  }

  ghost predicate SuspendedTyped(m: Module, f: Frame)
    requires Loaded(m)
  {
    TypedAt(m, f.handler, f.pc, TypesOf(f.stack) + [String])
  }

  ghost predicate Typed(m: Module, vm: Vm)
    requires Loaded(m)
  {
    && TypesOf(vm.state) == TypesOf(m.initialState)
    && vm.page < |m.pages|
    && forall t :: t in vm.tasks ==> SuspendedTyped(m, vm.tasks[t])
  }

  lemma {:induction false} TypesAppend(s: seq<Value>, v: Value)
    ensures TypesOf(s + [v]) == TypesOf(s) + [TypeOf(v)]
  {
  }

  lemma {:induction false} TypesTake(s: seq<Value>, k: nat)
    requires k <= |s|
    ensures TypesOf(s[..k]) == TypesOf(s)[..k]
  {
  }

  // The instruction at pc hands a well-typed stack on to its successors.
  ghost predicate Flows(m: Module, h: nat, pc: nat, i: Instruction, after: Option<Stack>)
    requires Loaded(m)
  {
    && after.Some? && |after.value| <= m.limits.maxStack
    && (i.Render? ==> i.page < |m.pages|)
    && forall k :: 0 <= k < |Successors(i, pc)| ==> TypedAt(m, h, Successors(i, pc)[k], after.value)
  }

  lemma {:induction false} TypedFlows(m: Module, h: nat, pc: nat, s: Stack)
    requires Loaded(m) && TypedAt(m, h, pc, s)
    ensures OperandsOk(m, m.handlers[h][pc])
    ensures Flows(m, h, pc, m.handlers[h][pc], Transfer(m, m.handlers[h][pc], s))
  {
    var code := m.handlers[h];
    assert OperandsOk(m, code[pc]);
    assert Typable(m, RuntimePolicy, code);
    var after := Transfer(m, code[pc], s);
    forall T: Typing | Consistent(m, RuntimePolicy, code, T)
      ensures after.Some? && Permitted(m, RuntimePolicy, code[pc], after.value)
      ensures forall k :: 0 <= k < |Successors(code[pc], pc)| ==>
        Successors(code[pc], pc)[k] < |code| && T[Successors(code[pc], pc)[k]] == after
    {
      assert StepTyped(m, RuntimePolicy, code, T, pc);
    }
    forall k | 0 <= k < |Successors(code[pc], pc)|
      ensures TypedAt(m, h, Successors(code[pc], pc)[k], after.value)
    {
    }
  }

  // What one instruction may do to a typed runtime.
  ghost predicate SoundResult(m: Module, r: (Vm, Outcome))
    requires Loaded(m)
  {
    && Typed(m, r.0)
    && (r.1.Running? ==> FrameTyped(m, r.1.frame) && |r.1.frame.stack| <= m.limits.maxStack)
    && (r.1.Failed? ==> !Internal(r.1.error))
  }

  // f's stack, typed s, becomes f''s stack by the transfer of the instruction.
  lemma {:induction false} Advances(m: Module, f: Frame, i: Instruction, after: Stack, g: Frame, k: nat)
    requires Loaded(m) && Flows(m, f.handler, f.pc, i, Some(after))
    requires k < |Successors(i, f.pc)| && g.pc == Successors(i, f.pc)[k]
    requires g.handler == f.handler && TypesOf(g.stack) == after
    ensures FrameTyped(m, g) && |g.stack| <= m.limits.maxStack
  {
    assert TypedAt(m, f.handler, Successors(i, f.pc)[k], after);
  }

  lemma {:induction false} TopTypes(f: Frame, k: nat)
    requires k < |f.stack|
    ensures TypeOf(Top(f, k)) == TypesOf(f.stack)[|f.stack| - 1 - k]
  {
  }

  lemma {:induction false} ExecuteSound(m: Module, vm: Vm, f: Frame, i: Instruction, host: Host)
    requires Loaded(m) && Typed(m, vm) && OperandsOk(m, i)
    requires Flows(m, f.handler, f.pc, i, Transfer(m, i, TypesOf(f.stack)))
    ensures SoundResult(m, Execute(m, vm, f, i, host))
  {
    hide Loaded, TypedAt, RenderPage;
    var s := TypesOf(f.stack);
    var after := Transfer(m, i, s).value;
    match i
    case Constant(v) =>
      TypesAppend(f.stack, v);
      Advances(m, f, i, after, Push(f, v), 0);
    case EventValue =>
      if f.eventValue.Some? {
        TypesAppend(f.stack, StringValue(f.eventValue.value));
        Advances(m, f, i, after, Push(f, StringValue(f.eventValue.value)), 0);
      }
    case StateGet(slot) =>
      StateTypes(m, vm, slot);
      TypesAppend(f.stack, vm.state[slot]);
      Advances(m, f, i, after, Push(f, vm.state[slot]), 0);
    case StateSet(slot) => SetStateSound(m, vm, f, slot, after);
    case IntegerAdd => AddSound(m, vm, f, after);
    case Equal =>
      TypesTake(f.stack, |f.stack| - 2);
      var v := BoolValue(Top(f, 1) == Top(f, 0));
      TypesAppend(f.stack[..|f.stack| - 2], v);
      Advances(m, f, i, after, Push(Drop(f, 2), v), 0);
    case Jump(t) => Advances(m, f, i, after, f.(pc := t), 0);
    case JumpIfFalse(t) =>
      TopTypes(f, 0);
      TypesTake(f.stack, |f.stack| - 1);
      Advances(m, f, i, after, Drop(f, 1).(pc := if Top(f, 0).b then f.pc + 1 else t), if Top(f, 0).b then 1 else 0);
    case Effect(c, o, n) => CallSound(m, vm, f, c, o, n, host, after);
    case AsyncEffect(c, o, n) => StartSound(m, vm, f, c, o, n, host, after);
    case Pop =>
      TypesTake(f.stack, |f.stack| - 1);
      Advances(m, f, i, after, Drop(f, 1).(pc := f.pc + 1), 0);
    case Render(page) =>
      RenderSound(m, vm, page, host);
      Advances(m, f, i, after, f.(pc := f.pc + 1), 0);
    case Halt =>
  }

  lemma {:induction false} StateTypes(m: Module, vm: Vm, slot: nat)
    requires Loaded(m) && Typed(m, vm) && slot < |m.initialState|
    ensures slot < |vm.state| && TypeOf(vm.state[slot]) == TypeOf(m.initialState[slot])
  {
    TypesPointwise(vm.state, m.initialState);
  }

  lemma {:induction false} SetStateSound(m: Module, vm: Vm, f: Frame, slot: u16, after: Stack)
    requires Loaded(m) && Typed(m, vm) && slot < |m.initialState|
    requires Transfer(m, StateSet(slot), TypesOf(f.stack)) == Some(after)
    requires Flows(m, f.handler, f.pc, StateSet(slot), Some(after))
    ensures SoundResult(m, SetState(m, vm, f, slot))
  {
    hide Loaded, TypedAt;
    StateTypes(m, vm, slot);
    TopTypes(f, 0);
    TypesTake(f.stack, |f.stack| - 1);
    Advances(m, f, StateSet(slot), after, Drop(f, 1).(pc := f.pc + 1), 0);
    assert TypesOf(vm.state[slot := Top(f, 0)]) == TypesOf(vm.state);
  }

  lemma {:induction false} AddSound(m: Module, vm: Vm, f: Frame, after: Stack)
    requires Loaded(m) && Typed(m, vm)
    requires Transfer(m, IntegerAdd, TypesOf(f.stack)) == Some(after)
    requires Flows(m, f.handler, f.pc, IntegerAdd, Some(after))
    ensures SoundResult(m, (vm, Add(f)))
  {
    hide Loaded, TypedAt;
    TopTypes(f, 0);
    TopTypes(f, 1);
    if Add(f).Running? {
      TypesTake(f.stack, |f.stack| - 2);
      var v := IntValue(Top(f, 1).i + Top(f, 0).i);
      TypesAppend(f.stack[..|f.stack| - 2], v);
      Advances(m, f, IntegerAdd, after, Push(Drop(f, 2), v), 0);
    }
  }

  lemma {:induction false} CallSound(m: Module, vm: Vm, f: Frame, c: u16, o: u16, n: u8, host: Host, after: Stack)
    requires Loaded(m) && Typed(m, vm) && OperandsOk(m, Effect(c, o, n))
    requires Transfer(m, Effect(c, o, n), TypesOf(f.stack)) == Some(after)
    requires Flows(m, f.handler, f.pc, Effect(c, o, n), Some(after))
    ensures SoundResult(m, CallEffect(m, vm, f, c, o, n, host))
  {
    hide Loaded, TypedAt;
    var r := CallEffect(m, vm, f, c, o, n, host);
    assert TypesOf(f.stack)[..|f.stack| - n] + [String] == after;
    if r.1.Running? {
      TypesTake(f.stack, |f.stack| - n);
      var v := r.1.frame.stack[|f.stack| - n];
      TypesAppend(f.stack[..|f.stack| - n], v);
      Advances(m, f, Effect(c, o, n), after, r.1.frame, 0);
    }
  }

  lemma {:induction false} ParkedTyped(m: Module, f: Frame, c: u16, o: u16, n: u8, after: Stack)
    requires Loaded(m) && OperandsOk(m, AsyncEffect(c, o, n))
    requires Transfer(m, AsyncEffect(c, o, n), TypesOf(f.stack)) == Some(after)
    requires Flows(m, f.handler, f.pc, AsyncEffect(c, o, n), Some(after))
    ensures |f.stack| >= n && SuspendedTyped(m, Drop(f, n).(pc := f.pc + 1))
  {
    hide Loaded, TypedAt;
    TypesTake(f.stack, |f.stack| - n);
    assert TypesOf(Drop(f, n).stack) + [String] == after;
    assert TypedAt(m, f.handler, Successors(AsyncEffect(c, o, n), f.pc)[0], after);
  }

  lemma {:induction false} LaunchSound(m: Module, vm: Vm, call: HostCall, parked: Frame, host: Host)
    requires Loaded(m) && Typed(m, vm) && SuspendedTyped(m, parked) && call.BeginAsync?
    ensures SoundResult(m, Launch(vm, call, parked, host))
  {
    hide Loaded, SuspendedTyped;
  }

  lemma {:induction false} TypedDepends(m: Module, vm: Vm, vm': Vm)
    requires Loaded(m) && Typed(m, vm) && vm'.state == vm.state && vm'.page == vm.page && vm'.tasks == vm.tasks
    ensures Typed(m, vm')
  {
    hide Loaded, SuspendedTyped, TypesOf;
  }

  lemma {:induction false} FailedSound(m: Module, vm: Vm, e: Error)
    requires Loaded(m) && Typed(m, vm) && (e.TaskBudget? || e.TaskIdsExhausted?)
    ensures SoundResult(m, (vm, Failed(e)))
  {
    hide Loaded, Typed;
  }

  // Starting a task ends at once, or launches it.
  lemma {:induction false} StartLaunches(m: Module, vm: Vm, f: Frame, c: u16, o: u16, n: u8, host: Host)
    requires c < |m.capabilities| && o < |m.constants| && |f.stack| >= n
    ensures var r, id := StartEffect(m, vm, f, c, o, n, host), vm.nextTask;
      var vm1 := vm.(nextTask := NextId(id), log := vm.log.(starts := vm.log.starts + 1));
      var call := BeginAsync(id, m.capabilities[c], m.constants[o], f.stack[|f.stack| - n..]);
      || r == (vm, Failed(TaskBudget)) || r == (vm1, Failed(TaskIdsExhausted))
      || r == Launch(vm1, call, Drop(f, n).(pc := f.pc + 1), host)
  {
    hide Launch, NextId, Drop;
  }

  lemma {:induction false} StartSound(m: Module, vm: Vm, f: Frame, c: u16, o: u16, n: u8, host: Host, after: Stack)
    requires Loaded(m) && Typed(m, vm) && OperandsOk(m, AsyncEffect(c, o, n))
    requires Transfer(m, AsyncEffect(c, o, n), TypesOf(f.stack)) == Some(after)
    requires Flows(m, f.handler, f.pc, AsyncEffect(c, o, n), Some(after))
    ensures SoundResult(m, StartEffect(m, vm, f, c, o, n, host))
  {
    assert c < |m.capabilities| && o < |m.constants|;
    ParkedTyped(m, f, c, o, n, after);
    hide *;
    StartLaunches(m, vm, f, c, o, n, host);
    FailedSound(m, vm, TaskBudget);
    var id := vm.nextTask;
    var vm1 := vm.(nextTask := NextId(id), log := vm.log.(starts := vm.log.starts + 1));
    TypedDepends(m, vm, vm1);
    FailedSound(m, vm1, TaskIdsExhausted);
    LaunchSound(m, vm1, BeginAsync(id, m.capabilities[c], m.constants[o], f.stack[|f.stack| - n..]),
                Drop(f, n).(pc := f.pc + 1), host);
  }

  lemma {:induction false} PageRenders(m: Module, state: seq<Value>, page: nat)
    requires Loaded(m) && page < |m.pages| && TypesOf(state) == TypesOf(m.initialState)
    ensures Renderable(m, state, m.pages[page])
  {
    TypesPointwise(state, m.initialState);
    assert NodeOk(m, m.pages[page]);
    CheckedPagesRender(m, state, m.pages[page]);
  }

  lemma {:induction false} RenderEffect(m: Module, vm: Vm, page: u16, host: Host)
    requires page < |m.pages| && Renderable(m, vm.state, m.pages[page])
    ensures var r := RenderPage(m, vm, page, host);
      && (r.1.Some? ==> r.1.value.RevisionExhausted? || r.1.value.HostFailed?)
      && r.0.state == vm.state && r.0.tasks == vm.tasks && r.0.page == page
  {
    hide Renderable, Snapshot, Revise, Exhausts, Skips, PreviousIndex;
  }

  lemma {:induction false} RenderSound(m: Module, vm: Vm, page: u16, host: Host)
    requires Loaded(m) && Typed(m, vm) && page < |m.pages|
    ensures var r := RenderPage(m, vm, page, host);
      Typed(m, r.0) && (r.1.Some? ==> !Internal(r.1.value))
  {
    hide Renderable, RenderPage;
    PageRenders(m, vm.state, page);
    RenderEffect(m, vm, page, host);
    hide Loaded, TypedAt;
  }

  // One round of the interpreter loop keeps everything typed.
  lemma {:induction false} StepSound(m: Module, vm: Vm, f: Frame, host: Host)
    requires Loaded(m) && Typed(m, vm) && FrameTyped(m, f)
    ensures Typed(m, Step(m, vm, f, host).0)
    ensures Step(m, vm, f, host).1.Running? ==> FrameTyped(m, Step(m, vm, f, host).1.frame)
    ensures Step(m, vm, f, host).1.Failed? ==> !Internal(Step(m, vm, f, host).1.error)
  {
    hide Execute;
    TypedFlows(m, f.handler, f.pc, TypesOf(f.stack));
    if f.executed + 1 <= m.limits.maxInstructions {
      var f1 := f.(executed := f.executed + 1);
      ExecuteSound(m, Charged(vm, f.origin), f1, m.handlers[f.handler][f.pc], host);
    }
  }

  // A handler starts typed, and a completed task resumes typed.
  lemma {:induction false} EntryTyped(m: Module, h: u16, value: Option<Bytes>, origin: nat)
    requires Loaded(m) && h < |m.handlers|
    ensures FrameTyped(m, Frame(h, 0, 0, [], value, origin))
  {
    assert TypesOf([]) == [];
  }

  lemma {:induction false} ResumedTyped(m: Module, f: Frame, v: Value)
    requires Loaded(m) && SuspendedTyped(m, f) && v.StringValue?
    ensures FrameTyped(m, f.(stack := f.stack + [v]))
  {
    TypesAppend(f.stack, v);
  }
}

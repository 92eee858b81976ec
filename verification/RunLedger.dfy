/** Accounts a run keeps, one instruction at a time: asynchronous tasks, executed
    instructions, state size, and event values. */
module RunLedger {
  import opened Basics
  import opened Bytecode
  import opened UiTree
  import opened Interpreter
  import opened FrameTypes

  // -------- what an instruction leaves alone --------

  ghost predicate SameExceptCalls(a: History, b: History) {
    b == a.(calls := b.calls, delivered := b.delivered)
  }

  // Only StartEffect touches the tasks; only it and Invoke and Render call the host.
  ghost predicate TasksUntouched(vm: Vm, vm': Vm) {
    && vm'.tasks == vm.tasks && vm'.nextTask == vm.nextTask
    && vm'.started == vm.started
    && SameExceptCalls(vm.log, vm'.log)
    && vm.log.calls <= vm'.log.calls
    && forall k :: |vm.log.calls| <= k < |vm'.log.calls| ==> !vm'.log.calls[k].BeginAsync?
  }

  ghost predicate SameIdentity(f: Frame, g: Frame) {
    g.handler == f.handler && g.origin == f.origin && g.executed == f.executed && g.eventValue == f.eventValue
  }

  lemma {:induction false} RenderUntouched(m: Module, vm: Vm, page: u16, host: Host)
    ensures TasksUntouched(vm, RenderPage(m, vm, page, host).0)
    ensures RenderPage(m, vm, page, host).0.state == vm.state
  {
    hide Renderable, Snapshot, Revise, Exhausts, Skips, PreviousIndex;
  }

  lemma {:induction false} SetUntouched(m: Module, vm: Vm, f: Frame, slot: u16)
    ensures var r := SetState(m, vm, f, slot);
      TasksUntouched(vm, r.0) && (r.1.Running? ==> SameIdentity(f, r.1.frame))
  {
    hide StateSize, ValueSize, TypeOf;
  }

  lemma {:induction false} CallUntouched(m: Module, vm: Vm, f: Frame, c: u16, o: u16, n: u8, host: Host)
    ensures var r := CallEffect(m, vm, f, c, o, n, host);
      && TasksUntouched(vm, r.0) && r.0.state == vm.state
      && (r.1.Running? ==> SameIdentity(f, r.1.frame))
  {
    hide ValueSize;
  }

  lemma {:induction false} StartUntouched(m: Module, vm: Vm, f: Frame, c: u16, o: u16, n: u8, host: Host)
    ensures var r := StartEffect(m, vm, f, c, o, n, host);
      r.0.state == vm.state && !r.1.Running? && r.1 != Failed(MissingEventValue)
  {
  }

  lemma {:induction false} ExecuteUntouched(m: Module, vm: Vm, f: Frame, i: Instruction, host: Host)
    ensures var r := Execute(m, vm, f, i, host);
      && (!i.AsyncEffect? ==> TasksUntouched(vm, r.0))
      && (!i.StateSet? ==> r.0.state == vm.state)
      && (r.1.Running? ==> SameIdentity(f, r.1.frame))
      && (i.AsyncEffect? ==> !r.1.Running?)
  {
    hide RenderPage, SetState, CallEffect, StartEffect;
    match i
    case Render(page) => RenderUntouched(m, vm, page, host);
    case StateSet(slot) => SetUntouched(m, vm, f, slot);
    case Effect(c, o, n) => CallUntouched(m, vm, f, c, o, n, host);
    case AsyncEffect(c, o, n) => StartUntouched(m, vm, f, c, o, n, host);
    case _ =>
  }

  // -------- asynchronous tasks --------

  // Which IDs have been handed to the host: every one of them is pending, resumed,
  // cancelled or refused, and only one of these.
  ghost predicate Ledger(vm: Vm) {
    var log := vm.log;
    && vm.nextTask == log.starts + 1
    && (forall t: u64 :: t in vm.tasks || t in log.resumed || t in log.cancelled || t in log.refused
          <==> 1 <= t <= log.starts)
    && vm.tasks.Keys !! log.resumed !! log.cancelled !! log.refused
    && (forall k :: 0 <= k < |log.calls| && log.calls[k].BeginAsync? ==> log.calls[k].task <= log.starts)
    && (forall j, k :: 0 <= j < k < |log.calls| && log.calls[j].BeginAsync? && log.calls[k].BeginAsync? ==>
          log.calls[j].task < log.calls[k].task)
  }

  // Fewer than 2^64 - 1 asynchronous starts were attempted.
  ghost predicate IdsLeft(vm: Vm) {
    vm.log.starts < MAX_U64
  }

  ghost predicate Tasked(m: Module, vm: Vm) {
    |vm.tasks| <= m.limits.maxTasks && (IdsLeft(vm) ==> Ledger(vm))
  }

  lemma {:induction false} UntouchedKeepsLedger(m: Module, vm: Vm, vm': Vm)
    requires Tasked(m, vm) && TasksUntouched(vm, vm')
    ensures Tasked(m, vm')
  {
    if IdsLeft(vm') {
      var a, b := vm.log.calls, vm'.log.calls;
      assert forall k :: 0 <= k < |a| ==> b[k] == a[k];
    }
  }

  // The runtime after an ID was drawn and the host was told about it.
  function Announced(vm: Vm, call: HostCall): Vm {
    vm.(nextTask := NextId(vm.nextTask),
        log := vm.log.(starts := vm.log.starts + 1, calls := vm.log.calls + [call]))
  }

  function Refused(vm: Vm, call: HostCall): Vm {
    var vm' := Announced(vm, call);
    vm'.(tasks := vm'.tasks - {vm.nextTask}, log := vm'.log.(refused := vm'.log.refused + {vm.nextTask}))
  }

  function Parked(vm: Vm, call: HostCall, f: Frame): Vm {
    var vm' := Announced(vm, call);
    vm'.(tasks := if vm.nextTask in vm'.tasks then vm'.tasks else vm'.tasks[vm.nextTask := f])
  }

  // Every way StartEffect can leave the runtime.
  lemma {:induction false} StartCases(m: Module, vm: Vm, f: Frame, c: u16, o: u16, n: u8, host: Host)
    requires c < |m.capabilities| && o < |m.constants|
    ensures var vm' := StartEffect(m, vm, f, c, o, n, host).0;
      || vm' == vm
      || (|vm.tasks| < m.limits.maxTasks
          && (|| (vm' == Drawn(vm)
                  && (vm.nextTask == 0 || NextId(vm.nextTask) == 0))
              || (exists call: HostCall :: call.BeginAsync? && call.task == vm.nextTask && vm' == Refused(vm, call))
              || (exists call: HostCall, g: Frame :: call.BeginAsync? && call.task == vm.nextTask
                    && vm' == Parked(vm, call, g) && g.origin == f.origin && g.executed == f.executed
                    && g.handler == f.handler && g.eventValue == f.eventValue)))
  {
    StartUnfolds(m, vm, f, c, o, n, host);
    hide StartEffect, Launch, Refused, Parked;
    if |vm.tasks| < m.limits.maxTasks && |f.stack| >= n {
      var call := BeginAsync(vm.nextTask, m.capabilities[c], m.constants[o], f.stack[|f.stack| - n..]);
      LaunchCases(vm, Drawn(vm), call, Drop(f, n).(pc := f.pc + 1), host);
    }
  }

  // The runtime after a task ID was drawn.
  function Drawn(vm: Vm): Vm {
    vm.(nextTask := NextId(vm.nextTask), log := vm.log.(starts := vm.log.starts + 1))
  }

  lemma {:induction false} StartUnfolds(m: Module, vm: Vm, f: Frame, c: u16, o: u16, n: u8, host: Host)
    requires c < |m.capabilities| && o < |m.constants|
    ensures StartEffect(m, vm, f, c, o, n, host).0 ==
      if |vm.tasks| >= m.limits.maxTasks || |f.stack| < n then vm
      else if vm.nextTask == 0 || NextId(vm.nextTask) == 0 then Drawn(vm)
      else Launch(Drawn(vm), BeginAsync(vm.nextTask, m.capabilities[c], m.constants[o], f.stack[|f.stack| - n..]),
                  Drop(f, n).(pc := f.pc + 1), host).0
  {
    hide Launch;
  }

  lemma {:induction false} LaunchCases(vm: Vm, vm1: Vm, call: HostCall, g: Frame, host: Host)
    requires call.BeginAsync? && call.task == vm.nextTask
    requires vm1 == Drawn(vm)
    ensures var vm' := Launch(vm1, call, g, host).0; vm' == Refused(vm, call) || vm' == Parked(vm, call, g)
  {
  }

  lemma {:induction false} AnnouncedLedger(vm: Vm, call: HostCall)
    requires Ledger(vm) && vm.log.starts + 1 < MAX_U64
    requires call.BeginAsync? && call.task == vm.nextTask
    ensures var log, log' := vm.log, Announced(vm, call).log;
      && vm.nextTask !in vm.tasks && vm.nextTask !in log.resumed
      && vm.nextTask !in log.cancelled && vm.nextTask !in log.refused
      && (forall k :: 0 <= k < |log'.calls| && log'.calls[k].BeginAsync? ==> log'.calls[k].task <= log'.starts)
      && (forall j, k :: 0 <= j < k < |log'.calls| && log'.calls[j].BeginAsync? && log'.calls[k].BeginAsync? ==>
            log'.calls[j].task < log'.calls[k].task)
  {
    var a, b := vm.log.calls, Announced(vm, call).log.calls;
    assert forall k :: 0 <= k < |a| ==> b[k] == a[k];
  }

  lemma {:induction false} RefusedLedger(vm: Vm, call: HostCall)
    requires Ledger(vm) && vm.log.starts + 1 < MAX_U64
    requires call.BeginAsync? && call.task == vm.nextTask
    ensures Ledger(Refused(vm, call))
  {
    AnnouncedLedger(vm, call);
  }

  lemma {:induction false} ParkedLedger(vm: Vm, call: HostCall, g: Frame)
    requires Ledger(vm) && vm.log.starts + 1 < MAX_U64
    requires call.BeginAsync? && call.task == vm.nextTask
    ensures Ledger(Parked(vm, call, g))
  {
    AnnouncedLedger(vm, call);
  }

  lemma {:induction false} StartKeepsLedger(m: Module, vm: Vm, f: Frame, c: u16, o: u16, n: u8, host: Host)
    requires Tasked(m, vm) && c < |m.capabilities| && o < |m.constants|
    ensures Tasked(m, StartEffect(m, vm, f, c, o, n, host).0)
  {
    hide StartEffect, Ledger;
    StartCases(m, vm, f, c, o, n, host);
    var vm' := StartEffect(m, vm, f, c, o, n, host).0;
    if vm' != vm {
      assert vm'.tasks.Keys <= vm.tasks.Keys + {vm.nextTask};
      TaskCount(vm.tasks, vm'.tasks, vm.nextTask);
      if IdsLeft(vm') {
        LedgerNext(vm);
        if call: HostCall :| call.BeginAsync? && call.task == vm.nextTask && vm' == Refused(vm, call) {
          RefusedLedger(vm, call);
        } else if call: HostCall, g: Frame :| call.BeginAsync? && call.task == vm.nextTask && vm' == Parked(vm, call, g) {
          ParkedLedger(vm, call, g);
        }
      }
    }
  }

  lemma {:induction false} LedgerNext(vm: Vm)
    requires Ledger(vm)
    ensures vm.nextTask == vm.log.starts + 1
  {
  }

  lemma {:induction false} TaskCount(a: map<u64, Frame>, b: map<u64, Frame>, id: u64)
    requires b.Keys <= a.Keys + {id}
    ensures |b| <= |a| + 1
  {
    SubsetCount(b.Keys, a.Keys + {id});
    assert |b.Keys| == |b| && |a.Keys| == |a|;
  }

  // -------- executed instructions --------

  ghost function Spent(vm: Vm, origin: nat): nat {
    if origin in vm.log.spent then vm.log.spent[origin] else 0
  }

  // The account of every event stays within the watchdog's limit, and a suspended
  // frame carries its event's account with it.
  ghost predicate Accounted(m: Module, vm: Vm) {
    && (forall o :: o in vm.log.spent ==> o < vm.log.entries && vm.log.spent[o] <= m.limits.maxInstructions)
    && (forall t :: t in vm.tasks ==>
          vm.tasks[t].origin < vm.log.entries && Spent(vm, vm.tasks[t].origin) == vm.tasks[t].executed)
    && (forall t, u :: t in vm.tasks && u in vm.tasks && t != u ==> vm.tasks[t].origin != vm.tasks[u].origin)
  }

  ghost predicate FrameAccounted(vm: Vm, f: Frame) {
    && f.origin < vm.log.entries && Spent(vm, f.origin) == f.executed
    && forall t :: t in vm.tasks ==> vm.tasks[t].origin != f.origin
  }

  lemma {:induction false} ChargeKeeps(m: Module, vm: Vm, f: Frame)
    requires Accounted(m, vm) && FrameAccounted(vm, f) && f.executed + 1 <= m.limits.maxInstructions
    ensures Accounted(m, Charged(vm, f.origin))
    ensures FrameAccounted(Charged(vm, f.origin), f.(executed := f.executed + 1))
  {
  }

  lemma {:induction false} ExecuteAccounted(m: Module, vm: Vm, f: Frame, i: Instruction, host: Host)
    requires Accounted(m, vm) && FrameAccounted(vm, f) && OperandsOk(m, i)
    ensures var r := Execute(m, vm, f, i, host);
      Accounted(m, r.0) && (r.1.Running? ==> FrameAccounted(r.0, r.1.frame))
  {
    hide RenderPage, StartEffect;
    ExecuteUntouched(m, vm, f, i, host);
    if i.AsyncEffect? {
      StartAccounted(m, vm, f, i.capability, i.operation, i.arity, host);
    }
  }

  lemma {:induction false} ParkedAccounted(m: Module, vm: Vm, call: HostCall, f: Frame, g: Frame)
    requires Accounted(m, vm) && FrameAccounted(vm, f) && g.origin == f.origin && g.executed == f.executed
    ensures Accounted(m, Parked(vm, call, g))
  {
    var vm' := Parked(vm, call, g);
    forall t | t in vm'.tasks
      ensures vm'.tasks[t].origin < vm'.log.entries && Spent(vm', vm'.tasks[t].origin) == vm'.tasks[t].executed
    {
      assert t in vm.tasks || vm'.tasks[t] == g;
    }
  }

  lemma {:induction false} RefusedAccounted(m: Module, vm: Vm, call: HostCall)
    requires Accounted(m, vm)
    ensures Accounted(m, Refused(vm, call))
  {
  }

  lemma {:induction false} StartAccounted(m: Module, vm: Vm, f: Frame, c: u16, o: u16, n: u8, host: Host)
    requires Accounted(m, vm) && FrameAccounted(vm, f) && c < |m.capabilities| && o < |m.constants|
    ensures Accounted(m, StartEffect(m, vm, f, c, o, n, host).0)
  {
    hide StartEffect, Parked, Refused, FrameAccounted;
    StartCases(m, vm, f, c, o, n, host);
    var vm' := StartEffect(m, vm, f, c, o, n, host).0;
    if call: HostCall :| call.BeginAsync? && call.task == vm.nextTask && vm' == Refused(vm, call) {
      RefusedAccounted(m, vm, call);
    } else if call: HostCall, g: Frame :| vm' == Parked(vm, call, g) && g.origin == f.origin && g.executed == f.executed {
      ParkedAccounted(m, vm, call, f, g);
    }
  }

  // -------- state size --------

  lemma {:induction false} SizeAfterSet(state: seq<Value>, k: nat, v: Value)
    requires k < |state|
    ensures StateSize(state[k := v]) == StateSize(state) - ValueSize(state[k]) + ValueSize(v)
  {
    if k > 0 {
      SizeAfterSet(state[1..], k - 1, v);
      assert state[k := v][1..] == state[1..][k - 1 := v];
    } else {
      assert state[k := v][1..] == state[1..];
    }
  }

  // An assignment that is not rejected brings the state within its budget.
  lemma {:induction false} ExecuteSized(m: Module, vm: Vm, f: Frame, i: Instruction, host: Host)
    ensures var s := Execute(m, vm, f, i, host).0.state;
      s == vm.state || StateSize(s) <= m.limits.maxStateBytes
  {
    hide RenderPage, StartEffect, CallEffect, StateSize, ValueSize;
    ExecuteUntouched(m, vm, f, i, host);
    if i.StateSet? && |f.stack| >= 1 && i.slot < |vm.state| {
      SizeAfterSet(vm.state, i.slot, Top(f, 0));
    }
  }

  // -------- event values --------

  predicate ReadsEventValue(code: Code) {
    exists pc | 0 <= pc < |code| :: code[pc].EventValue?
  }

  // A frame whose handler reads the event value has one.
  ghost predicate FrameValued(m: Module, f: Frame) {
    f.handler < |m.handlers| && ReadsEventValue(m.handlers[f.handler]) ==> f.eventValue.Some?
  }

  ghost predicate Valued(m: Module, vm: Vm) {
    forall t :: t in vm.tasks ==> FrameValued(m, vm.tasks[t])
  }

  lemma {:induction false} RenderErrors(m: Module, vm: Vm, page: u16, host: Host)
    ensures RenderPage(m, vm, page, host).1 != Some(MissingEventValue)
  {
    hide Renderable, Snapshot, Revise, Exhausts, Skips, PreviousIndex;
  }

  // Only EventValue can miss a value, and then the frame has none.
  lemma {:induction false} MissingOnlyWithout(m: Module, vm: Vm, f: Frame, i: Instruction, host: Host)
    requires i.EventValue? ==> f.eventValue.Some?
    ensures Execute(m, vm, f, i, host).1 != Failed(MissingEventValue)
  {
    hide RenderPage, StartEffect, SetState, CallEffect, Add, Push, Drop, Top;
    match i
    case Render(page) => RenderErrors(m, vm, page, host);
    case AsyncEffect(c, o, n) => StartUntouched(m, vm, f, c, o, n, host);
    case StateSet(slot) => SetErrors(m, vm, f, slot);
    case Effect(c, o, n) => CallErrors(m, vm, f, c, o, n, host);
    case IntegerAdd => AddErrors(f);
    case _ =>
  }

  lemma {:induction false} SetErrors(m: Module, vm: Vm, f: Frame, slot: u16)
    ensures SetState(m, vm, f, slot).1 != Failed(MissingEventValue)
  {
    hide StateSize, ValueSize, TypeOf;
  }

  lemma {:induction false} CallErrors(m: Module, vm: Vm, f: Frame, c: u16, o: u16, n: u8, host: Host)
    ensures CallEffect(m, vm, f, c, o, n, host).1 != Failed(MissingEventValue)
  {
  }

  lemma {:induction false} AddErrors(f: Frame)
    ensures Add(f) != Failed(MissingEventValue)
  {
  }

  lemma {:induction false} ExecuteValued(m: Module, vm: Vm, f: Frame, i: Instruction, host: Host)
    requires Valued(m, vm) && FrameValued(m, f) && OperandsOk(m, i)
    ensures var r := Execute(m, vm, f, i, host);
      Valued(m, r.0) && (r.1.Running? ==> FrameValued(m, r.1.frame))
  {
    ExecuteUntouched(m, vm, f, i, host);
    if i.AsyncEffect? {
      hide StartEffect;
      StartValued(m, vm, f, i.capability, i.operation, i.arity, host);
    } else {
      hide Execute;
    }
  }

  lemma {:induction false} StartValued(m: Module, vm: Vm, f: Frame, c: u16, o: u16, n: u8, host: Host)
    requires Valued(m, vm) && FrameValued(m, f) && c < |m.capabilities| && o < |m.constants|
    ensures Valued(m, StartEffect(m, vm, f, c, o, n, host).0)
  {
    hide StartEffect;
    StartCases(m, vm, f, c, o, n, host);
  }

  lemma {:induction false} StepValued(m: Module, vm: Vm, f: Frame, host: Host)
    requires Valued(m, vm) && FrameValued(m, f)
    requires f.handler < |m.handlers| && f.pc < |m.handlers[f.handler]|
    requires OperandsOk(m, m.handlers[f.handler][f.pc])
    ensures var r := Step(m, vm, f, host);
      && Valued(m, r.0)
      && (r.1.Running? ==> FrameValued(m, r.1.frame))
      && r.1 != Failed(MissingEventValue)
  {
    hide Execute, OperandsOk;
    var i := m.handlers[f.handler][f.pc];
    var f1, vm1 := f.(executed := f.executed + 1), Charged(vm, f.origin);
    MissingOnlyWithout(m, vm1, f1, i, host);
    ExecuteValued(m, vm1, f1, i, host);
  }

  // -------- all accounts together --------

  // A run's fixed choices: a bound on the state, and whether the host supplies values.
  datatype Terms = Terms(bound: nat, values: bool)

  ghost predicate Kept(m: Module, c: Terms, vm: Vm)
    requires Loaded(m)
  {
    && Typed(m, vm)
    && Tasked(m, vm)
    && Accounted(m, vm)
    && StateSize(vm.state) <= c.bound
    && (c.values ==> Valued(m, vm))
  }

  ghost predicate FrameKept(m: Module, c: Terms, vm: Vm, f: Frame)
    requires Loaded(m)
  {
    && FrameTyped(m, f)
    && FrameAccounted(vm, f)
    && (c.values ==> FrameValued(m, f))
  }

  lemma {:induction false} StepKeeps(m: Module, c: Terms, vm: Vm, f: Frame, host: Host)
    requires Loaded(m) && m.limits.maxStateBytes <= c.bound
    requires Kept(m, c, vm) && FrameKept(m, c, vm, f)
    ensures var r := Step(m, vm, f, host);
      && Kept(m, c, r.0)
      && (r.1.Running? ==> FrameKept(m, c, r.0, r.1.frame))
      && (r.1.Failed? ==> !Internal(r.1.error) && (c.values ==> !r.1.error.MissingEventValue?))
  {
    hide Execute, Loaded, StateSize, Typed, FrameTyped, Tasked;
    StepSound(m, vm, f, host);
    FrameInRange(m, f);
    if c.values {
      StepValued(m, vm, f, host);
    }
    if f.executed + 1 <= m.limits.maxInstructions {
      var i := m.handlers[f.handler][f.pc];
      var f1, vm1 := f.(executed := f.executed + 1), Charged(vm, f.origin);
      ChargeKeeps(m, vm, f);
      ExecuteAccounted(m, vm1, f1, i, host);
      ExecuteSized(m, vm1, f1, i, host);
      ChargeTasked(m, vm, f.origin);
      ExecuteTasked(m, vm1, f1, i, host);
    }
  }

  lemma {:induction false} FrameInRange(m: Module, f: Frame)
    requires Loaded(m) && FrameTyped(m, f)
    ensures f.handler < |m.handlers| && f.pc < |m.handlers[f.handler]|
    ensures OperandsOk(m, m.handlers[f.handler][f.pc])
  {
  }

  lemma {:induction false} ChargeTasked(m: Module, vm: Vm, origin: nat)
    requires Tasked(m, vm)
    ensures Tasked(m, Charged(vm, origin))
  {
  }

  lemma {:induction false} ExecuteTasked(m: Module, vm: Vm, f: Frame, i: Instruction, host: Host)
    requires Tasked(m, vm) && OperandsOk(m, i)
    ensures Tasked(m, Execute(m, vm, f, i, host).0)
  {
    hide RenderPage, Tasked, StartEffect;
    ExecuteUntouched(m, vm, f, i, host);
    if i.AsyncEffect? {
      StartKeepsLedger(m, vm, f, i.capability, i.operation, i.arity, host);
    } else {
      UntouchedKeepsLedger(m, vm, Execute(m, vm, f, i, host).0);
    }
  }
}

/** Safety over whole runs: whatever the events, their order and the host's answers,
    the accounts of RunLedger are kept and no internal error is raised. */
module RunSafety {
  import opened Basics
  import opened Bytecode
  import opened StateCodec
  import opened Migration
  import opened Interpreter
  import opened FrameTypes
  import opened RunLedger

  // -------- one call of run --------

  lemma {:induction false} RunKeeps(m: Module, c: Terms, vm: Vm, f: Frame, host: Host)
    requires Loaded(m) && m.limits.maxStateBytes <= c.bound
    requires Kept(m, c, vm) && FrameKept(m, c, vm, f)
    ensures var r := Run(m, vm, f, host);
      && Kept(m, c, r.0)
      && (r.1.Some? ==> !Internal(r.1.value) && (c.values ==> !r.1.value.MissingEventValue?))
    decreases m.limits.maxInstructions - f.executed
  {
    hide Loaded, Kept, FrameKept, Step;
    StepKeeps(m, c, vm, f, host);
    match Step(m, vm, f, host)
    case (vm', Running(f')) =>
      RunKeeps(m, c, vm', f', host);
    case (vm', Finished) =>
    case (vm', Failed(e)) =>
  }

  // -------- event bindings --------

  // The compiler's rule: a handler that reads the event value is not the entry
  // handler and is bound to change and submit events only.
  ghost predicate NodeSafe(m: Module, n: UiNode)
    decreases n
  {
    && (forall k :: 0 <= k < |n.events| ==> BindingSafe(m, n.events[k]))
    && forall i :: 0 <= i < |n.children| ==> NodeSafe(m, n.children[i])
  }

  ghost predicate BindingSafe(m: Module, b: EventBinding) {
    b.handler < |m.handlers| && ReadsEventValue(m.handlers[b.handler]) ==> b.event == CHANGE || b.event == SUBMIT
  }

  ghost predicate BindingsSafe(m: Module) {
    && (m.entryHandler.Some? && m.entryHandler.value < |m.handlers| ==>
          !ReadsEventValue(m.handlers[m.entryHandler.value]))
    && forall p :: 0 <= p < |m.pages| ==> NodeSafe(m, m.pages[p])
  }

  lemma {:induction false} FirstBindingFound(bs: seq<EventBinding>, event: EventType)
    requires FirstBinding(bs, event).Some?
    ensures exists k :: 0 <= k < |bs| && bs[k] == EventBinding(event, FirstBinding(bs, event).value)
  {
    if bs[0].event == event {
      assert bs[0] == EventBinding(event, FirstBinding(bs, event).value);
    } else {
      FirstBindingFound(bs[1..], event);
      var k :| 0 <= k < |bs[1..]| && bs[1..][k] == EventBinding(event, FirstBinding(bs, event).value);
      assert bs[k + 1] == bs[1..][k];
    }
  }

  lemma {:induction false} FoundIsBound(m: Module, n: UiNode, node: u32, event: EventType)
    requires NodeOk(m, n) && FindEvent(n, node, event).Some?
    ensures FindEvent(n, node, event).value < |m.handlers|
    ensures NodeSafe(m, n) ==> BindingSafe(m, EventBinding(event, FindEvent(n, node, event).value))
    decreases n, 1
  {
    if n.id == node && FirstBinding(n.events, event).Some? {
      FirstBindingFound(n.events, event);
    } else {
      FoundIsBoundAll(m, n.children, node, event);
    }
  }

  lemma {:induction false} FoundIsBoundAll(m: Module, ns: seq<UiNode>, node: u32, event: EventType)
    requires forall i :: 0 <= i < |ns| ==> NodeOk(m, ns[i])
    requires FindEventAll(ns, node, event).Some?
    ensures FindEventAll(ns, node, event).value < |m.handlers|
    ensures (forall i :: 0 <= i < |ns| ==> NodeSafe(m, ns[i])) ==>
      BindingSafe(m, EventBinding(event, FindEventAll(ns, node, event).value))
    decreases ns, 0
  {
    if FindEvent(ns[0], node, event).Some? {
      FoundIsBound(m, ns[0], node, event);
    } else {
      FoundIsBoundAll(m, ns[1..], node, event);
    }
  }

  // -------- one event --------

  // What the caller promises about an event under the chosen terms.
  ghost predicate Admissible(m: Module, c: Terms, e: Event) {
    && (e.Restore? ==>
          forall s: seq<Value> :: RestoreState(m, m.initialState, e.snapshot) == Some(s) ==> StateSize(s) <= c.bound)
    && (c.values && e.Dispatch? && (e.event == CHANGE || e.event == SUBMIT) ==> e.value.Some?)
  }

  ghost predicate TermsOk(m: Module, c: Terms) {
    m.limits.maxStateBytes <= c.bound && (c.values ==> BindingsSafe(m))
  }

  lemma {:induction false} RestoreUsesTypes(m: Module, state: seq<Value>, b: Bytes)
    requires TypesOf(state) == TypesOf(m.initialState)
    ensures RestoreState(m, state, b) == RestoreState(m, m.initialState, b)
  {
    hide GetHeader;
    TypesPointwise(state, m.initialState);
    if GetHeader(b).Done? {
      FieldsUseTypes(state, m.initialState, 0, m.limits.maxStateBytes, GetHeader(b).rest);
    }
  }

  lemma {:induction false} FieldsUseTypes(a: seq<Value>, b: seq<Value>, used: nat, budget: nat, bytes: Bytes)
    requires |a| == |b| && forall i :: 0 <= i < |a| ==> TypeOf(a[i]) == TypeOf(b[i])
    ensures RestoreFields(a, used, budget, bytes) == RestoreFields(b, used, budget, bytes)
    decreases |a|
  {
    hide GetValue;
    if a != [] && GetValue(bytes).Done? {
      FieldsUseTypes(a[1..], b[1..], used + RestoredSize(GetValue(bytes).value), budget, GetValue(bytes).rest);
    }
  }

  lemma {:induction false} EnteredAccounts(m: Module, vm: Vm, f: Frame)
    requires f.origin == vm.log.entries && f.executed == 0
    ensures var vm' := vm.(log := vm.log.(entries := vm.log.entries + 1));
      && (Tasked(m, vm) ==> Tasked(m, vm'))
      && (Accounted(m, vm) ==> Accounted(m, vm') && FrameAccounted(vm', f))
  {
  }

  lemma {:induction false} EnterKeeps(m: Module, c: Terms, vm: Vm, h: u16, value: Option<Bytes>, host: Host)
    requires Loaded(m) && TermsOk(m, c) && Kept(m, c, vm) && h < |m.handlers|
    requires c.values && ReadsEventValue(m.handlers[h]) ==> value.Some?
    ensures var r := EnterHandler(m, vm, h, value, host);
      && Kept(m, c, r.0)
      && (r.1.Some? ==> !Internal(r.1.value) && (c.values ==> !r.1.value.MissingEventValue?))
  {
    hide Run, StateSize, Tasked, Accounted, FrameAccounted;
    var f := Frame(h, 0, 0, [], value, vm.log.entries);
    var vm' := vm.(log := vm.log.(entries := vm.log.entries + 1));
    EntryTyped(m, h, value, vm.log.entries);
    hide Loaded, FrameTyped, SuspendedTyped;
    EnteredAccounts(m, vm, f);
    RunKeeps(m, c, vm', f, host);
  }

  // The runtime after a task was taken out for resumption.
  function Taken(vm: Vm, task: u64): Vm {
    vm.(tasks := vm.tasks - {task}, log := vm.log.(resumed := vm.log.resumed + {task}))
  }

  lemma {:induction false} TakenTasked(m: Module, vm: Vm, task: u64)
    requires task in vm.tasks && Tasked(m, vm)
    ensures Tasked(m, Taken(vm, task))
  {
    var vm' := Taken(vm, task);
    SubsetCount(vm'.tasks.Keys, vm.tasks.Keys);
    assert |vm'.tasks| == |vm'.tasks.Keys| && |vm.tasks| == |vm.tasks.Keys|;
    LedgerMoves(vm, vm', task);
  }

  lemma {:induction false} TakenAccounted(m: Module, vm: Vm, task: u64, v: Value)
    requires task in vm.tasks && Accounted(m, vm)
    ensures Accounted(m, Taken(vm, task))
    ensures FrameAccounted(Taken(vm, task), vm.tasks[task].(stack := vm.tasks[task].stack + [v]))
  {
  }

  lemma {:induction false} ResumeKeeps(m: Module, c: Terms, vm: Vm, task: u64, result: Value, host: Host)
    requires Loaded(m) && TermsOk(m, c) && Kept(m, c, vm)
    ensures var r := CompleteEffect(m, vm, task, result, host);
      && Kept(m, c, r.0)
      && (r.1.Some? ==> !Internal(r.1.value) && (c.values ==> !r.1.value.MissingEventValue?))
  {
    hide Run, Loaded, SuspendedTyped, FrameTyped, StateSize, Tasked, Accounted, FrameAccounted;
    if vm.started && result.StringValue? && ValueSize(result) <= m.limits.maxStateBytes && task in vm.tasks {
      var f := vm.tasks[task];
      ResumedTyped(m, f, result);
      TakenTasked(m, vm, task);
      TakenAccounted(m, vm, task, result);
      RunKeeps(m, c, Taken(vm, task), f.(stack := f.stack + [result]), host);
    }
  }

  lemma {:induction false} LedgerMoves(vm: Vm, vm': Vm, task: u64)
    requires task in vm.tasks && vm' == Taken(vm, task)
    ensures Ledger(vm) ==> Ledger(vm')
  {
  }

  lemma {:induction false} CancelledAccounts(m: Module, vm: Vm)
    ensures Tasked(m, vm) ==> Tasked(m, CancelTasks(vm))
    ensures Accounted(m, vm) ==> Accounted(m, CancelTasks(vm))
  {
    var vm' := CancelTasks(vm);
    assert vm'.tasks.Keys == {} && |vm'.tasks| == 0;
    assert Ledger(vm) ==> Ledger(vm');
  }

  lemma {:induction false} CancelKeeps(m: Module, c: Terms, vm: Vm)
    requires Loaded(m) && Kept(m, c, vm)
    ensures Kept(m, c, CancelTasks(vm))
  {
    hide Loaded, StateSize, Tasked, Accounted;
    CancelledAccounts(m, vm);
  }

  lemma {:induction false} UntouchedAccounts(m: Module, vm: Vm, vm': Vm)
    requires TasksUntouched(vm, vm')
    ensures Accounted(m, vm) ==> Accounted(m, vm')
    ensures Valued(m, vm) ==> Valued(m, vm')
  {
  }

  lemma {:induction false} RenderKeeps(m: Module, c: Terms, vm: Vm, page: u16, host: Host)
    requires Loaded(m) && Kept(m, c, vm) && page < |m.pages|
    ensures var r := RenderPage(m, vm, page, host);
      && Kept(m, c, r.0)
      && (r.1.Some? ==> !Internal(r.1.value) && !r.1.value.MissingEventValue?)
  {
    hide RenderPage, Typed, StateSize, Tasked, Accounted, Valued;
    RenderSound(m, vm, page, host);
    RenderUntouched(m, vm, page, host);
    RenderErrors(m, vm, page, host);
    hide Loaded, TasksUntouched;
    UntouchedKeepsLedger(m, vm, RenderPage(m, vm, page, host).0);
    UntouchedAccounts(m, vm, RenderPage(m, vm, page, host).0);
  }

  lemma {:induction false} HandleKeeps(m: Module, c: Terms, vm: Vm, e: Event, host: Host)
    requires Loaded(m) && TermsOk(m, c) && Kept(m, c, vm) && Admissible(m, c, e)
    ensures var r := Handle(m, vm, e, host);
      && Kept(m, c, r.0)
      && (r.1.Some? ==> !Internal(r.1.value) && (c.values ==> !r.1.value.MissingEventValue?))
  {
    hide StartUp, DispatchEvent, CompleteEffect, CancelTasks, RestoreState, Tasked, Accounted, Valued, StateSize,
      Loaded, TermsOk;
    match e
    case Start => StartUpKeeps(m, c, vm, host);
    case Dispatch(node, event, value) => DispatchKeeps(m, c, vm, e, host);
    case Complete(task, result) => ResumeKeeps(m, c, vm, task, result, host);
    case CancelAll => CancelKeeps(m, c, vm);
    case Restore(b) => RestoreKeeps(m, c, vm, b);
  }

  lemma {:induction false} RestoreKeeps(m: Module, c: Terms, vm: Vm, b: Bytes)
    requires Loaded(m) && TermsOk(m, c) && Kept(m, c, vm) && Admissible(m, c, Restore(b))
    ensures var r := RestoreInto(m, vm, b);
      Kept(m, c, r.0) && (r.1.Some? ==> !Internal(r.1.value) && !r.1.value.MissingEventValue?)
  {
    hide RestoreState, Tasked, Accounted, Valued, StateSize;
    RestoreUsesTypes(m, vm.state, b);
    if RestoreState(m, m.initialState, b).Some? {
      RestoredStateBound(m, b);
      RestoredKeeps(m, vm, RestoreState(m, m.initialState, b).value);
    }
  }

  lemma {:induction false} StartUpKeeps(m: Module, c: Terms, vm: Vm, host: Host)
    requires Loaded(m) && TermsOk(m, c) && Kept(m, c, vm)
    ensures var r := StartUp(m, vm, host);
      && Kept(m, c, r.0)
      && (r.1.Some? ==> !Internal(r.1.value) && (c.values ==> !r.1.value.MissingEventValue?))
  {
    hide EnterHandler, RenderPage, Tasked, Accounted, Valued, StateSize;
    var vm' := vm.(started := true);
    assert Tasked(m, vm') && Accounted(m, vm') && Valued(m, vm') == Valued(m, vm) by {
      StartedKeeps(m, vm);
    }
    if m.entryHandler.Some? {
      EnterKeeps(m, c, vm', m.entryHandler.value, None, host);
    } else {
      RenderKeeps(m, c, vm', m.entryPage, host);
    }
  }

  lemma {:induction false} DispatchKeeps(m: Module, c: Terms, vm: Vm, e: Event, host: Host)
    requires Loaded(m) && TermsOk(m, c) && Kept(m, c, vm) && Admissible(m, c, e) && e.Dispatch?
    ensures var r := DispatchEvent(m, vm, e.node, e.event, e.value, host);
      && Kept(m, c, r.0)
      && (r.1.Some? ==> !Internal(r.1.value) && (c.values ==> !r.1.value.MissingEventValue?))
  {
    hide EnterHandler, Tasked, Accounted, Valued, StateSize;
    assert NodeOk(m, m.pages[vm.page]);
    var found := FindEvent(m.pages[vm.page], e.node, e.event);
    if found.Some? {
      FoundIsBound(m, m.pages[vm.page], e.node, e.event);
      if !(e.value.Some? && |e.value.value| > m.limits.maxStateBytes) && vm.started {
        EnterKeeps(m, c, vm, found.value, e.value, host);
      }
    }
  }

  lemma {:induction false} StartedKeeps(m: Module, vm: Vm)
    requires Tasked(m, vm) && Accounted(m, vm)
    ensures var vm' := vm.(started := true);
      Tasked(m, vm') && Accounted(m, vm') && Valued(m, vm') == Valued(m, vm)
  {
  }

  lemma {:induction false} RestoredKeeps(m: Module, vm: Vm, s: seq<Value>)
    requires Tasked(m, vm) && Accounted(m, vm)
    ensures var vm' := vm.(state := s);
      Tasked(m, vm') && Accounted(m, vm') && Valued(m, vm') == Valued(m, vm)
  {
  }

  // -------- whole runs --------

  ghost predicate AllAdmissible(m: Module, c: Terms, es: seq<Event>) {
    forall k :: 0 <= k < |es| ==> Admissible(m, c, es[k])
  }

  lemma {:induction false} InitialKept(m: Module, c: Terms)
    requires Loaded(m) && TermsOk(m, c)
    ensures Kept(m, c, InitialVm(m))
  {
  }

  lemma {:induction false} RunAllKeeps(m: Module, c: Terms, vm: Vm, es: seq<Event>, host: Host)
    requires Loaded(m) && TermsOk(m, c) && Kept(m, c, vm) && AllAdmissible(m, c, es)
    ensures Kept(m, c, RunAll(m, vm, es, host))
    decreases |es|
  {
    hide Handle, Loaded, Kept, TermsOk, Admissible;
    if es == [] {
    } else {
      HandleKeeps(m, c, vm, es[0], host);
      RunAllKeeps(m, c, Handle(m, vm, es[0], host).0, es[1..], host);
    }
  }

  // The largest state a module can hold, restores of either layout included.
  function LargestState(m: Module): nat {
    2 * m.limits.maxStateBytes + 7 * BoolCount(m.initialState)
  }

  lemma {:induction false} SameBools(a: seq<Value>, b: seq<Value>)
    requires |a| == |b| && forall i :: 0 <= i < |a| ==> TypeOf(a[i]) == TypeOf(b[i])
    ensures BoolCount(a) == BoolCount(b)
  {
    if a == [] {
    } else {
      SameBools(a[1..], b[1..]);
    }
  }

  lemma {:induction false} AlwaysAdmissible(m: Module, es: seq<Event>)
    requires Loaded(m)
    ensures AllAdmissible(m, Terms(LargestState(m), false), es)
  {
    forall k | 0 <= k < |es| ensures Admissible(m, Terms(LargestState(m), false), es[k]) {
      if es[k].Restore? && RestoreState(m, m.initialState, es[k].snapshot).Some? {
        hide RestoreState;
        RestoredStateBound(m, es[k].snapshot);
        var s := RestoreState(m, m.initialState, es[k].snapshot).value;
        TypesPointwise(s, m.initialState);
        SameBools(s, m.initialState);
      }
    }
  }

  // Type soundness: in every run of a loaded module each suspended frame has the types the
  // verifier computed, and no event ends in an internal error. Running frames follow from
  // the rounds of the loop.
  lemma {:induction false} TypeSoundness(m: Module, es: seq<Event>, e: Event, host: Host)
    requires Loaded(m)
    ensures Typed(m, After(m, es, host))
    ensures var r := Handle(m, After(m, es, host), e, host).1; r.Some? ==> !Internal(r.value)
  {
    hide Loaded, Handle, Typed;
    var c := Terms(LargestState(m), false);
    AlwaysAdmissible(m, es);
    AlwaysAdmissible(m, [e]);
    assert Admissible(m, c, [e][0]);
    InitialKept(m, c);
    RunAllKeeps(m, c, InitialVm(m), es, host);
    HandleKeeps(m, c, After(m, es, host), e, host);
  }

  // The watchdog: all instructions ever executed for one event, over any number of
  // suspensions, stay within the limit.
  lemma {:induction false} WatchdogBounds(m: Module, es: seq<Event>, host: Host, origin: nat)
    requires Loaded(m)
    ensures Spent(After(m, es, host), origin) <= m.limits.maxInstructions
  {
    hide Loaded, Typed, Tasked;
    var c := Terms(LargestState(m), false);
    AlwaysAdmissible(m, es);
    InitialKept(m, c);
    RunAllKeeps(m, c, InitialVm(m), es, host);
  }

  // Task conservation: never more than max_tasks pending, and while IDs last, every
  // ID handed out is in exactly one account.
  lemma {:induction false} TasksConserved(m: Module, es: seq<Event>, host: Host)
    requires Loaded(m)
    ensures |After(m, es, host).tasks| <= m.limits.maxTasks
    ensures IdsLeft(After(m, es, host)) ==> Ledger(After(m, es, host))
  {
    hide Loaded, Typed, Accounted;
    var c := Terms(LargestState(m), false);
    AlwaysAdmissible(m, es);
    InitialKept(m, c);
    RunAllKeeps(m, c, InitialVm(m), es, host);
  }

  // A task that was resumed, cancelled or refused never resumes (again).
  lemma {:induction false} NoSecondResume(m: Module, es: seq<Event>, host: Host, task: u64, result: Value)
    requires Loaded(m) && IdsLeft(After(m, es, host))
    requires var log := After(m, es, host).log;
      task in log.resumed || task in log.cancelled || task in log.refused
    ensures var vm := After(m, es, host);
      CompleteEffect(m, vm, task, result, host).0 == vm && CompleteEffect(m, vm, task, result, host).1.Some?
  {
    hide Loaded, RunAll;
    TasksConserved(m, es, host);
  }

  // When no accepted restore breaks the budget the state stays within it; with layout-1
  // restores only, within seven more bytes for each boolean; in every case within
  // LargestState.
  lemma {:induction false} StateSizeBound(m: Module, es: seq<Event>, host: Host)
    requires Loaded(m)
    ensures StateSize(After(m, es, host).state) <= LargestState(m)
    ensures (forall k :: 0 <= k < |es| && es[k].Restore? && RestoreState(m, m.initialState, es[k].snapshot).Some? ==>
               KeepsBudget(m, es[k].snapshot)) ==>
      StateSize(After(m, es, host).state) <= m.limits.maxStateBytes
    ensures (forall k :: 0 <= k < |es| && es[k].Restore? ==>
               GetHeader(es[k].snapshot).Done? ==> GetHeader(es[k].snapshot).value.version == 1) ==>
      StateSize(After(m, es, host).state) <= m.limits.maxStateBytes + 7 * BoolCount(m.initialState)
  {
    hide GetHeader, RunAll, KeepsBudget, RestoreState;
    AlwaysAdmissible(m, es);
    BoundFrom(m, Terms(LargestState(m), false), es, host);
    if forall k :: 0 <= k < |es| && es[k].Restore? && RestoreState(m, m.initialState, es[k].snapshot).Some? ==>
         KeepsBudget(m, es[k].snapshot)
    {
      var c := Terms(m.limits.maxStateBytes, false);
      forall k | 0 <= k < |es| ensures Admissible(m, c, es[k]) {
        WithinBudgetAdmissible(m, c, es[k]);
      }
      BoundFrom(m, c, es, host);
    }
    if forall k :: 0 <= k < |es| && es[k].Restore? ==>
         GetHeader(es[k].snapshot).Done? ==> GetHeader(es[k].snapshot).value.version == 1
    {
      var c := Terms(m.limits.maxStateBytes + 7 * BoolCount(m.initialState), false);
      forall k | 0 <= k < |es| ensures Admissible(m, c, es[k]) {
        LayoutOneAdmissible(m, c, es[k]);
      }
      BoundFrom(m, c, es, host);
    }
  }

  lemma {:induction false} WithinBudgetAdmissible(m: Module, c: Terms, e: Event)
    requires Loaded(m) && c == Terms(m.limits.maxStateBytes, false)
    requires e.Restore? && RestoreState(m, m.initialState, e.snapshot).Some? ==> KeepsBudget(m, e.snapshot)
    ensures Admissible(m, c, e)
  {
    hide RestoreState, KeepsBudget;
    if e.Restore? && RestoreState(m, m.initialState, e.snapshot).Some? {
      RestoredWithinBudget(m, e.snapshot);
    }
  }

  lemma {:induction false} LayoutOneAdmissible(m: Module, c: Terms, e: Event)
    requires Loaded(m) && c == Terms(m.limits.maxStateBytes + 7 * BoolCount(m.initialState), false)
    requires e.Restore? && GetHeader(e.snapshot).Done? ==> GetHeader(e.snapshot).value.version == 1
    ensures Admissible(m, c, e)
  {
    hide GetHeader;
    if e.Restore? && RestoreState(m, m.initialState, e.snapshot).Some? {
      RestoredStateBound(m, e.snapshot);
      var s := RestoreState(m, m.initialState, e.snapshot).value;
      TypesPointwise(s, m.initialState);
      SameBools(s, m.initialState);
    }
  }

  lemma {:induction false} BoundFrom(m: Module, c: Terms, es: seq<Event>, host: Host)
    requires Loaded(m) && TermsOk(m, c) && AllAdmissible(m, c, es)
    ensures StateSize(After(m, es, host).state) <= c.bound
  {
    InitialKept(m, c);
    RunAllKeeps(m, c, InitialVm(m), es, host);
  }

  // For a module that obeys the compiler's binding rule, hosts that give a value with
  // every change and submit never see "requires a UI event value", not even from a
  // handler resumed after a suspension.
  lemma {:induction false} NoMissingEventValue(m: Module, es: seq<Event>, e: Event, host: Host)
    requires Loaded(m) && BindingsSafe(m)
    requires forall k :: 0 <= k < |es + [e]| ==>
      (es + [e])[k].Dispatch? && ((es + [e])[k].event == CHANGE || (es + [e])[k].event == SUBMIT) ==>
        (es + [e])[k].value.Some?
    ensures Handle(m, After(m, es, host), e, host).1 != Some(MissingEventValue)
  {
    hide Loaded, Handle, BindingsSafe, RestoreState, LargestState;
    var c := Terms(LargestState(m), true);
    AlwaysAdmissible(m, es + [e]);
    forall k | 0 <= k < |es + [e]| ensures Admissible(m, c, (es + [e])[k]) {
      assert Admissible(m, Terms(LargestState(m), false), (es + [e])[k]);
    }
    forall k | 0 <= k < |es| ensures Admissible(m, c, es[k]) {
      assert es[k] == (es + [e])[k];
    }
    assert Admissible(m, c, (es + [e])[|es|]);
    LargestIsEnough(m);
    InitialKept(m, c);
    RunAllKeeps(m, c, InitialVm(m), es, host);
    HandleKeeps(m, c, After(m, es, host), e, host);
  }

  lemma {:induction false} LargestIsEnough(m: Module)
    ensures m.limits.maxStateBytes <= LargestState(m)
  {
  }
}

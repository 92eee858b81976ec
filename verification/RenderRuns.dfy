/** The display over whole runs: after every event, a full-tree host and a patched
    host hold the runtime's last snapshot, and no message was refused on the way. */
module RenderRuns {
  import opened Basics
  import opened Bytecode
  import opened UiTree
  import opened UiDelta
  import opened SwiftUiTree
  import opened UiAgreement
  import opened StateCodec
  import opened Interpreter
  import opened FrameTypes
  import opened RunLedger
  import opened RunSafety

  // A host that applies, in order, the messages for every delivered tree.
  ghost function Watch(wire: nat, trees: seq<Snap>): (HostState, bool)
  {
    if trees == [] then (EMPTY_HOST, true)
    else
      var (h, ok) := Watch(wire, trees[..|trees| - 1]);
      if ok then Receive(h, Emit(wire, trees[|trees| - 1])) else (h, false)
  }

  ghost predicate OfSomePage(m: Module, t: Snap) {
    exists p :: 0 <= p < |m.pages| && SameSkeleton(t, m.pages[p])
  }

  ghost predicate Shown(m: Module, vm: Vm) {
    && (vm.last.Some? ==> OfSomePage(m, vm.last.value))
    && Watch(WIRE_V1, vm.log.delivered) == Watch(WIRE_V2, vm.log.delivered)
    && Watch(WIRE_V1, vm.log.delivered).1
    && Synced(Watch(WIRE_V1, vm.log.delivered).0, vm.last)
  }

  // -------- node IDs across pages --------

  lemma {:induction false} PageIds(ps: seq<UiNode>, i: nat)
    requires Distinct(IdsAll(ps)) && i < |ps|
    ensures Distinct(Ids(ps[i]))
    ensures forall x :: x in Ids(ps[i]) ==> x in IdsAll(ps)
    ensures forall j :: 0 <= j < |ps| && j != i ==> Disjoint(Ids(ps[i]), Ids(ps[j]))
    decreases |ps|
  {
    var first, rest := Ids(ps[0]), IdsAll(ps[1..]);
    DistinctConcat(first, rest);
    if i == 0 {
    } else {
      PageIds(ps[1..], i - 1);
    }
    forall j | 0 <= j < |ps| && j != i ensures Disjoint(Ids(ps[i]), Ids(ps[j])) {
      if i > 0 && j > 0 {
        assert ps[j] == ps[1..][j - 1];
      } else if j > 0 {
        PageIds(ps[1..], j - 1);
      }
    }
  }

  // Snapshots of different pages share no ID, so nothing of the old one is found.
  lemma {:induction false} PageSwitchIsStructural(m: Module, last: Snap, n: Snap, p: nat, q: nat)
    requires Distinct(IdsAll(m.pages)) && p < |m.pages| && q < |m.pages| && p != q
    requires SameSkeleton(last, m.pages[p]) && SameSkeleton(n, m.pages[q]) && n.structureChanged
    ensures Structural(Revise(Some(last), n))
  {
    PageIds(m.pages, p);
    SkeletonIds(last, m.pages[p]);
    SkeletonIds(n, m.pages[q]);
    IndexCovers(last, map[]);
    assert n.id in SnapIds(n);
  }

  // -------- one render --------

  // What render skips is already displayed, revision by revision.
  lemma {:induction false} SkipLosesNothing(last: Snap, n: Snap)
    requires Distinct(SnapIds(last)) && Skips(Some(last), Revise(Some(last), n))
    ensures SameTree(last, n) && Wire(Revise(Some(last), n)) == Wire(last)
  {
    var prev := PreviousIndex(Some(last));
    IndexCovers(last, map[]);
    RevisionsDecideEquality(prev, last, n);
    UnchangedIsExact(prev, last, n);
    ExactWire(last, Assign(prev, n));
  }

  lemma {:induction false} Delivered(m: Module, vm: Vm, n: Snap, q: nat)
    requires Distinct(IdsAll(m.pages)) && q < |m.pages| && Shown(m, vm)
    requires SameSkeleton(n, m.pages[q]) && n.structureChanged
    requires SameSkeleton(Revise(vm.last, n), m.pages[q])
    requires !Skips(vm.last, Revise(vm.last, n))
    ensures var t := Revise(vm.last, n);
      Shown(m, vm.(last := Some(t), log := vm.log.(delivered := vm.log.delivered + [t])))
  {
    var t := Revise(vm.last, n);
    var trees := vm.log.delivered + [t];
    PageIds(m.pages, q);
    SkeletonIds(n, m.pages[q]);
    if vm.last.Some? {
      var p :| 0 <= p < |m.pages| && SameSkeleton(vm.last.value, m.pages[p]);
      PageIds(m.pages, p);
      SkeletonIds(vm.last.value, m.pages[p]);
      if p != q {
        PageSwitchIsStructural(m, vm.last.value, n, p, q);
      }
    }
    RenderAgrees(Watch(WIRE_V1, vm.log.delivered).0, vm.last, n);
    assert trees[..|trees| - 1] == vm.log.delivered;
  }

  // Render delivers the revised page, or leaves the display alone.
  lemma {:induction false} RenderDelivers(m: Module, vm: Vm, page: u16, host: Host)
    requires page < |m.pages| && Renderable(m, vm.state, m.pages[page])
    ensures var vm', t := RenderPage(m, vm, page, host).0, Revise(vm.last, Snapshot(m, vm.state, m.pages[page]));
      || (vm'.last == vm.last && vm'.log.delivered == vm.log.delivered)
      || (!Skips(vm.last, t) && vm'.last == Some(t) && vm'.log.delivered == vm.log.delivered + [t])
  {
    hide Snapshot, Revise, Exhausts, PreviousIndex, Renderable;
  }

  lemma {:induction false} DisplayDecides(m: Module, a: Vm, b: Vm)
    requires Shown(m, a) && a.last == b.last && a.log.delivered == b.log.delivered
    ensures Shown(m, b)
  {
  }

  lemma {:induction false} RenderShown(m: Module, vm: Vm, page: u16, host: Host)
    requires Loaded(m) && TypesOf(vm.state) == TypesOf(m.initialState) && page < |m.pages|
    requires Shown(m, vm)
    ensures Shown(m, RenderPage(m, vm, page, host).0)
  {
    PageRenders(m, vm.state, page);
    var n := Snapshot(m, vm.state, m.pages[page]);
    SnapshotSkeleton(m, vm.state, PreviousIndex(vm.last), m.pages[page]);
    assert n.structureChanged;
    hide Snapshot, Exhausts, PreviousIndex, Renderable, Shown, RenderPage;
    RenderDelivers(m, vm, page, host);
    var vm', t := RenderPage(m, vm, page, host).0, Revise(vm.last, n);
    if vm'.last == vm.last && vm'.log.delivered == vm.log.delivered {
      DisplayDecides(m, vm, vm');
    } else {
      Delivered(m, vm, n, page);
      DisplayDecides(m, vm.(last := Some(t), log := vm.log.(delivered := vm.log.delivered + [t])), vm');
    }
  }

  // A render that ends without an error leaves the page's current evaluation displayed.
  lemma {:induction false} RenderShowsState(m: Module, vm: Vm, page: u16, host: Host)
    requires Loaded(m) && TypesOf(vm.state) == TypesOf(m.initialState) && page < |m.pages|
    requires Shown(m, vm) && RenderPage(m, vm, page, host).1.None?
    ensures Renderable(m, vm.state, m.pages[page])
    ensures var vm' := RenderPage(m, vm, page, host).0;
      vm'.last.Some? && SameTree(vm'.last.value, Snapshot(m, vm.state, m.pages[page]))
  {
    PageRenders(m, vm.state, page);
    var n := Snapshot(m, vm.state, m.pages[page]);
    RevisedIsSame(PreviousIndex(vm.last), n);
    if vm.last.Some? {
      LastIdsDistinct(m, vm);
      if Skips(vm.last, Revise(vm.last, n)) {
        SkipLosesNothing(vm.last.value, n);
      }
    }
    hide Snapshot, Revise, Exhausts, Renderable, Loaded, Shown, SameTree;
    RenderOutcome(m, vm, page, host);
  }

  lemma {:induction false} LastIdsDistinct(m: Module, vm: Vm)
    requires Loaded(m) && Shown(m, vm) && vm.last.Some?
    ensures Distinct(SnapIds(vm.last.value))
  {
    var p :| 0 <= p < |m.pages| && SameSkeleton(vm.last.value, m.pages[p]);
    PageIds(m.pages, p);
    SkeletonIds(vm.last.value, m.pages[p]);
  }

  lemma {:induction false} RenderOutcome(m: Module, vm: Vm, page: u16, host: Host)
    requires page < |m.pages| && Renderable(m, vm.state, m.pages[page])
    requires RenderPage(m, vm, page, host).1.None?
    ensures var t := Revise(vm.last, Snapshot(m, vm.state, m.pages[page]));
      RenderPage(m, vm, page, host).0.last == if Skips(vm.last, t) then vm.last else Some(t)
  {
    hide Snapshot, Revise, Exhausts, Renderable;
  }

  lemma {:induction false} RevisedIsSame(prev: map<u32, Snap>, n: Snap)
    ensures SameTree(Assign(prev, n), n)
    decreases n
  {
    forall i | 0 <= i < |n.children| ensures SameTree(Assign(prev, n).children[i], n.children[i]) {
      RevisedIsSame(prev, n.children[i]);
    }
  }

  // -------- runs --------

  ghost predicate DisplayUntouched(vm: Vm, vm': Vm) {
    vm'.last == vm.last && vm'.log.delivered == vm.log.delivered
  }

  lemma {:induction false} OthersLeaveDisplay(m: Module, vm: Vm, f: Frame, i: Instruction, host: Host)
    requires !i.Render?
    ensures DisplayUntouched(vm, Execute(m, vm, f, i, host).0)
  {
    hide RenderPage, StateSize, ValueSize, TypeOf;
  }

  lemma {:induction false} StepShown(m: Module, vm: Vm, f: Frame, host: Host)
    requires Loaded(m) && Typed(m, vm) && FrameTyped(m, f) && Shown(m, vm)
    ensures Shown(m, Step(m, vm, f, host).0)
  {
    hide Watch, Shown, Execute;
    TypedFlows(m, f.handler, f.pc, TypesOf(f.stack));
    if f.executed + 1 <= m.limits.maxInstructions {
      var f1, vm1 := f.(executed := f.executed + 1), Charged(vm, f.origin);
      DisplayDecides(m, vm, vm1);
      ExecuteShown(m, vm1, f1, m.handlers[f.handler][f.pc], host);
    }
  }

  lemma {:induction false} ExecuteShown(m: Module, vm: Vm, f: Frame, i: Instruction, host: Host)
    requires Loaded(m) && TypesOf(vm.state) == TypesOf(m.initialState) && Shown(m, vm)
    requires i.Render? ==> i.page < |m.pages|
    ensures Shown(m, Execute(m, vm, f, i, host).0)
  {
    hide Shown, RenderPage;
    if i.Render? {
      RenderShown(m, vm, i.page, host);
    } else {
      OthersLeaveDisplay(m, vm, f, i, host);
      hide Execute;
      DisplayDecides(m, vm, Execute(m, vm, f, i, host).0);
    }
  }

  // One round keeps the accounts and the display together.
  lemma {:induction false} RoundShown(m: Module, c: Terms, vm: Vm, f: Frame, host: Host)
    requires Loaded(m) && TermsOk(m, c) && Kept(m, c, vm) && FrameKept(m, c, vm, f) && Shown(m, vm)
    ensures var r := Step(m, vm, f, host);
      && Kept(m, c, r.0) && Shown(m, r.0)
      && (r.1.Running? ==> FrameKept(m, c, r.0, r.1.frame))
  {
    assert Typed(m, vm) && FrameTyped(m, f) && m.limits.maxStateBytes <= c.bound;
    hide Step, Shown, Loaded, Kept, FrameKept, TermsOk;
    StepShown(m, vm, f, host);
    StepKeeps(m, c, vm, f, host);
  }

  lemma {:induction false} RunShown(m: Module, c: Terms, vm: Vm, f: Frame, host: Host)
    requires Loaded(m) && TermsOk(m, c) && Kept(m, c, vm) && FrameKept(m, c, vm, f) && Shown(m, vm)
    ensures Shown(m, Run(m, vm, f, host).0)
    decreases m.limits.maxInstructions - f.executed
  {
    hide Step, Shown, Loaded, Kept, FrameKept, TermsOk;
    RoundShown(m, c, vm, f, host);
    if Step(m, vm, f, host).1.Running? {
      RunShown(m, c, Step(m, vm, f, host).0, Step(m, vm, f, host).1.frame, host);
    }
  }

  lemma {:induction false} FreshFrame(m: Module, c: Terms, vm: Vm, h: u16, value: Option<Bytes>)
    requires Loaded(m) && TermsOk(m, c) && Kept(m, c, vm) && h < |m.handlers| && Shown(m, vm)
    requires c.values && ReadsEventValue(m.handlers[h]) ==> value.Some?
    ensures var vm' := vm.(log := vm.log.(entries := vm.log.entries + 1));
      && Kept(m, c, vm') && FrameKept(m, c, vm', Frame(h, 0, 0, [], value, vm.log.entries)) && Shown(m, vm')
  {
    hide Watch, StateSize, Tasked, Accounted, FrameAccounted;
    EntryTyped(m, h, value, vm.log.entries);
    hide Loaded, FrameTyped, SuspendedTyped;
    EnteredAccounts(m, vm, Frame(h, 0, 0, [], value, vm.log.entries));
  }

  lemma {:induction false} EnterShown(m: Module, c: Terms, vm: Vm, h: u16, value: Option<Bytes>, host: Host)
    requires Loaded(m) && TermsOk(m, c) && Kept(m, c, vm) && h < |m.handlers| && Shown(m, vm)
    requires c.values && ReadsEventValue(m.handlers[h]) ==> value.Some?
    ensures Shown(m, EnterHandler(m, vm, h, value, host).0)
  {
    hide Run, Loaded, Kept, FrameKept, Shown, TermsOk;
    FreshFrame(m, c, vm, h, value);
    RunShown(m, c, vm.(log := vm.log.(entries := vm.log.entries + 1)), Frame(h, 0, 0, [], value, vm.log.entries), host);
  }

  lemma {:induction false} ResumedFrame(m: Module, c: Terms, vm: Vm, task: u64, result: Value)
    requires Loaded(m) && TermsOk(m, c) && Kept(m, c, vm) && Shown(m, vm) && task in vm.tasks
    requires result.StringValue? && ValueSize(result) <= m.limits.maxStateBytes
    ensures var f := vm.tasks[task].(stack := vm.tasks[task].stack + [result]);
      Kept(m, c, Taken(vm, task)) && FrameKept(m, c, Taken(vm, task), f) && Shown(m, Taken(vm, task))
  {
    hide Watch, Loaded, SuspendedTyped, FrameTyped, StateSize, Tasked, Accounted, FrameAccounted;
    ResumedTyped(m, vm.tasks[task], result);
    TakenTasked(m, vm, task);
    TakenAccounted(m, vm, task, result);
  }

  lemma {:induction false} ResumeShown(m: Module, c: Terms, vm: Vm, task: u64, result: Value, host: Host)
    requires Loaded(m) && TermsOk(m, c) && Kept(m, c, vm) && Shown(m, vm)
    ensures Shown(m, CompleteEffect(m, vm, task, result, host).0)
  {
    hide Run, Loaded, Kept, FrameKept, Shown, TermsOk;
    if vm.started && result.StringValue? && ValueSize(result) <= m.limits.maxStateBytes && task in vm.tasks {
      var f := vm.tasks[task];
      ResumedFrame(m, c, vm, task, result);
      RunShown(m, c, Taken(vm, task), f.(stack := f.stack + [result]), host);
    }
  }

  lemma {:induction false} HandleShown(m: Module, c: Terms, vm: Vm, e: Event, host: Host)
    requires Loaded(m) && TermsOk(m, c) && Kept(m, c, vm) && Shown(m, vm) && !c.values
    ensures Shown(m, Handle(m, vm, e, host).0)
  {
    hide EnterHandler, CompleteEffect, RenderPage, RestoreState, Tasked, Accounted, Valued, StateSize, Watch;
    match e
    case Start =>
      var vm' := vm.(started := true);
      StartedKeeps(m, vm);
      assert Shown(m, vm');
      if m.entryHandler.Some? {
        EnterShown(m, c, vm', m.entryHandler.value, None, host);
      } else {
        RenderShown(m, vm', m.entryPage, host);
      }
    case Dispatch(node, event, value) =>
      assert NodeOk(m, m.pages[vm.page]);
      if FindEvent(m.pages[vm.page], node, event).Some? {
        FoundIsBound(m, m.pages[vm.page], node, event);
        EnterShown(m, c, vm, FindEvent(m.pages[vm.page], node, event).value, value, host);
      }
    case Complete(task, result) => ResumeShown(m, c, vm, task, result, host);
    case CancelAll =>
    case Restore(b) =>
  }

  lemma {:induction false} RunAllShown(m: Module, c: Terms, vm: Vm, es: seq<Event>, host: Host)
    requires Loaded(m) && TermsOk(m, c) && !c.values && Kept(m, c, vm) && AllAdmissible(m, c, es) && Shown(m, vm)
    ensures Shown(m, RunAll(m, vm, es, host))
    decreases |es|
  {
    hide Handle, Loaded, Kept, TermsOk, Admissible, Shown;
    if es == [] {
    } else {
      HandleShown(m, c, vm, es[0], host);
      HandleKeeps(m, c, vm, es[0], host);
      RunAllShown(m, c, Handle(m, vm, es[0], host).0, es[1..], host);
    }
  }

  lemma {:induction false} AfterShown(m: Module, es: seq<Event>, host: Host)
    requires Loaded(m)
    ensures Shown(m, After(m, es, host)) && Kept(m, Terms(LargestState(m), false), After(m, es, host))
  {
    hide Loaded, RunAll, Shown;
    var c := Terms(LargestState(m), false);
    AlwaysAdmissible(m, es);
    InitialKept(m, c);
    NothingShown(m);
    RunAllShown(m, c, InitialVm(m), es, host);
    RunAllKeeps(m, c, InitialVm(m), es, host);
  }

  // Whole-run agreement: for every run of a loaded module, the hosts of both wire
  // versions applied all messages without an error, are in the same state, and show
  // the runtime's last snapshot, or nothing if there is none yet.
  lemma {:induction false} HostsAgree(m: Module, es: seq<Event>, host: Host)
    requires Loaded(m)
    ensures var vm := After(m, es, host);
      var v1, v2 := Watch(WIRE_V1, vm.log.delivered), Watch(WIRE_V2, vm.log.delivered);
      && v1 == v2 && v1.1
      && v1.0.root == (if vm.last.Some? then Some(Wire(vm.last.value)) else None)
  {
    hide Loaded, RunAll, Watch;
    AfterShown(m, es, host);
  }

  lemma {:induction false} NothingShown(m: Module)
    ensures Shown(m, InitialVm(m))
  {
  }

  // -------- inside a handler --------

  // Where an event enters the interpreter loop, if it does.
  function Enters(m: Module, vm: Vm, e: Event): Option<(Vm, Frame)> {
    var vm1 := vm.(log := vm.log.(entries := vm.log.entries + 1));
    match e
    case Start =>
      if vm.started || m.entryHandler.None? then None
      else Some((vm1.(started := true), Frame(m.entryHandler.value, 0, 0, [], None, vm.log.entries)))
    case Dispatch(node, event, value) =>
      if !vm.started || vm.page >= |m.pages| || FindEvent(m.pages[vm.page], node, event).None?
         || (value.Some? && |value.value| > m.limits.maxStateBytes)
      then None
      else Some((vm1, Frame(FindEvent(m.pages[vm.page], node, event).value, 0, 0, [], value, vm.log.entries)))
    case Complete(task, result) =>
      if !vm.started || !result.StringValue? || ValueSize(result) > m.limits.maxStateBytes || task !in vm.tasks then None
      else Some((Taken(vm, task), vm.tasks[task].(stack := vm.tasks[task].stack + [result])))
    case CancelAll => None
    case Restore(_) => None
  }

  // Handling an event is running from there.
  lemma {:induction false} HandleRuns(m: Module, vm: Vm, e: Event, host: Host)
    requires Enters(m, vm, e).Some?
    ensures Handle(m, vm, e, host) == Run(m, Enters(m, vm, e).value.0, Enters(m, vm, e).value.1, host)
  {
    hide Run, FindEvent, ValueSize;
  }

  // The runtime after so many rounds of the loop, and what the last round said.
  function Rounds(m: Module, vm: Vm, f: Frame, n: nat, host: Host): (Vm, Outcome)
    decreases n
  {
    if n == 0 then (vm, Running(f))
    else
      match Step(m, vm, f, host)
      case (vm', Running(f')) => Rounds(m, vm', f', n - 1, host)
      case (vm', o) => (vm', o)
  }

  // The loop is its rounds: it goes on where any number of them leaves it.
  lemma {:induction false} RunIsRounds(m: Module, vm: Vm, f: Frame, n: nat, host: Host)
    ensures var r := Rounds(m, vm, f, n, host);
      Run(m, vm, f, host) == match r.1
        case Running(f') => Run(m, r.0, f', host)
        case Finished => (r.0, None)
        case Failed(e) => (r.0, Some(e))
    decreases n
  {
    hide Step;
    if n == 0 {
    } else {
      match Step(m, vm, f, host)
      case (vm', Running(f')) => RunIsRounds(m, vm', f', n - 1, host);
      case (vm', Finished) =>
      case (vm', Failed(e)) =>
    }
  }

  lemma {:induction false} EntersShown(m: Module, c: Terms, vm: Vm, e: Event)
    requires Loaded(m) && TermsOk(m, c) && !c.values && Kept(m, c, vm) && Shown(m, vm) && Enters(m, vm, e).Some?
    ensures var (vm', f) := Enters(m, vm, e).value; Kept(m, c, vm') && FrameKept(m, c, vm', f) && Shown(m, vm')
  {
    hide Watch, StateSize, Tasked, Accounted, FrameAccounted, FindEvent, Valued;
    match e
    case Start =>
      StartedKeeps(m, vm);
      FreshFrame(m, c, vm.(started := true), m.entryHandler.value, None);
    case Dispatch(node, event, value) =>
      assert NodeOk(m, m.pages[vm.page]);
      FoundIsBound(m, m.pages[vm.page], node, event);
      FreshFrame(m, c, vm, FindEvent(m.pages[vm.page], node, event).value, value);
    case Complete(task, result) => ResumedFrame(m, c, vm, task, result);
    case CancelAll =>
    case Restore(_) =>
  }

  lemma {:induction false} RoundsShown(m: Module, c: Terms, vm: Vm, f: Frame, n: nat, host: Host)
    requires Loaded(m) && TermsOk(m, c) && Kept(m, c, vm) && FrameKept(m, c, vm, f) && Shown(m, vm)
    ensures var r := Rounds(m, vm, f, n, host);
      Shown(m, r.0) && (r.1.Running? ==> Kept(m, c, r.0) && FrameKept(m, c, r.0, r.1.frame))
    decreases n
  {
    hide Step, Shown, Loaded, Kept, FrameKept, TermsOk;
    if n == 0 {
    } else {
      RoundShown(m, c, vm, f, host);
      if Step(m, vm, f, host).1.Running? {
        RoundsShown(m, c, Step(m, vm, f, host).0, Step(m, vm, f, host).1.frame, n - 1, host);
      }
    }
  }

  // A run of a loaded module that has handled es is n rounds into the handler of e.
  ghost predicate Inside(m: Module, es: seq<Event>, e: Event, n: nat, host: Host, vm: Vm, f: Frame) {
    var entered := Enters(m, After(m, es, host), e);
    entered.Some? && Rounds(m, entered.value.0, entered.value.1, n, host) == (vm, Running(f))
  }

  // Being inside is being on the way: handling the event goes on from there.
  lemma {:induction false} InsideHandles(m: Module, es: seq<Event>, e: Event, n: nat, host: Host, vm: Vm, f: Frame)
    requires Inside(m, es, e, n, host, vm, f)
    ensures Handle(m, After(m, es, host), e, host) == Run(m, vm, f, host)
  {
    hide After, Enters, Rounds, Run, Handle;
    var entered := Enters(m, After(m, es, host), e).value;
    HandleRuns(m, After(m, es, host), e, host);
    RunIsRounds(m, entered.0, entered.1, n, host);
  }

  // Inside every handler of every run the running frame has the stack that every
  // consistent typing gives its pc, and the hosts show the last snapshot.
  lemma {:induction false} InsideShown(m: Module, es: seq<Event>, e: Event, n: nat, host: Host, vm: Vm, f: Frame)
    requires Loaded(m) && Inside(m, es, e, n, host, vm, f)
    ensures Shown(m, vm) && Typed(m, vm) && FrameTyped(m, f)
  {
    hide Loaded, Enters, Rounds, Shown, RunAll;
    var c := Terms(LargestState(m), false);
    AfterShown(m, es, host);
    var entered := Enters(m, After(m, es, host), e).value;
    EntersShown(m, c, After(m, es, host), e);
    RoundsShown(m, c, entered.0, entered.1, n, host);
  }

  // Inside every handler of every run: each render instruction that raises no error
  // leaves the page's evaluation over the state of that moment as the last snapshot, and
  // the hosts of both wire versions in one state that shows it.
  lemma {:induction false} RendersShowState(m: Module, es: seq<Event>, e: Event, n: nat, host: Host, vm: Vm, f: Frame)
    requires Loaded(m) && Inside(m, es, e, n, host, vm, f)
    requires f.handler < |m.handlers| && f.pc < |m.handlers[f.handler]| && m.handlers[f.handler][f.pc].Render?
    requires Step(m, vm, f, host).1.Running?
    ensures var page, after := m.handlers[f.handler][f.pc].page, Step(m, vm, f, host).0;
      && page < |m.pages| && Renderable(m, vm.state, m.pages[page])
      && after.last.Some? && SameTree(after.last.value, Snapshot(m, vm.state, m.pages[page]))
      && Watch(WIRE_V1, after.log.delivered) == Watch(WIRE_V2, after.log.delivered)
      && Watch(WIRE_V1, after.log.delivered).1
      && Watch(WIRE_V1, after.log.delivered).0.root == Some(Wire(after.last.value))
  {
    var page := m.handlers[f.handler][f.pc].page;
    InsideShown(m, es, e, n, host, vm, f);
    TypedFlows(m, f.handler, f.pc, TypesOf(f.stack));
    assert page < |m.pages| && TypesOf(vm.state) == TypesOf(m.initialState);
    hide *;
    StepShown(m, vm, f, host);
    RenderStep(m, vm, f, host);
    var vm1 := Charged(vm, f.origin);
    DisplayDecides(m, vm, vm1);
    RenderShowsState(m, vm1, page, host);
    ShownRoot(m, Step(m, vm, f, host).0);
  }

  // A round at a render instruction renders under a charged account.
  lemma {:induction false} RenderStep(m: Module, vm: Vm, f: Frame, host: Host)
    requires f.handler < |m.handlers| && f.pc < |m.handlers[f.handler]| && m.handlers[f.handler][f.pc].Render?
    requires Step(m, vm, f, host).1.Running?
    ensures var vm1, page := Charged(vm, f.origin), m.handlers[f.handler][f.pc].page;
      && vm1.state == vm.state && vm1.last == vm.last && vm1.log.delivered == vm.log.delivered
      && RenderPage(m, vm1, page, host).1.None? && Step(m, vm, f, host).0 == RenderPage(m, vm1, page, host).0
  {
    hide RenderPage;
  }

  // Without an entry handler, starting shows the entry page over the state restored or
  // initial at that moment.
  lemma {:induction false} StartShowsEntryPage(m: Module, es: seq<Event>, host: Host)
    requires Loaded(m) && m.entryHandler.None? && Handle(m, After(m, es, host), Start, host).1.None?
    ensures var vm, after := After(m, es, host), Handle(m, After(m, es, host), Start, host).0;
      && Renderable(m, vm.state, m.pages[m.entryPage])
      && after.last.Some? && SameTree(after.last.value, Snapshot(m, vm.state, m.pages[m.entryPage]))
  {
    var vm := After(m, es, host);
    AfterShown(m, es, host);
    hide Snapshot, Renderable, SameTree, Watch, RenderPage, RunAll;
    var vm1 := vm.(started := true);
    assert vm1.last == vm.last && vm1.log.delivered == vm.log.delivered && vm1.state == vm.state;
    DisplayDecides(m, vm, vm1);
    hide Shown;
    RenderShowsState(m, vm1, m.entryPage, host);
  }

  lemma {:induction false} ShownRoot(m: Module, vm: Vm)
    requires Shown(m, vm) && vm.last.Some?
    ensures Watch(WIRE_V1, vm.log.delivered) == Watch(WIRE_V2, vm.log.delivered)
    ensures Watch(WIRE_V1, vm.log.delivered).1
    ensures Watch(WIRE_V1, vm.log.delivered).0.root == Some(Wire(vm.last.value))
  {
  }
}

/** The interpreter's specification: one instruction, one event, and the runtime
    state between them.  Errors leave the state as it is when they are raised. */
module Interpreter {
  import opened Basics
  import opened Bytecode
  import opened UiTree
  import opened StateCodec

  // A suspended or running handler.  The origin numbers the event that created it;
  // it is only observed, never read.
  datatype Frame = Frame(
    handler: u16,
    pc: nat,
    executed: nat,
    stack: seq<Value>,
    eventValue: Option<Bytes>,
    origin: nat)

  datatype HostCall =
    | Invoke(capability: Bytes, operation: Bytes, arguments: seq<Value>)
    | BeginAsync(task: u64, capability: Bytes, operation: Bytes, arguments: seq<Value>)
    | ReplaceTree(tree: Snap)

  datatype HostReply = Returns(value: Value) | Throws

  // A host answers each call knowing every call so far, this one last.  Every
  // behaviour of a host that does not call back is such a function.
  type Host = seq<HostCall> -> HostReply

  // What an observer records; the interpreter itself never reads it.
  datatype History = History(
    calls: seq<HostCall>,
    delivered: seq<Snap>,
    starts: nat,
    resumed: set<u64>,
    cancelled: set<u64>,
    refused: set<u64>,
    entries: nat,
    spent: map<nat, nat>)

  datatype Vm = Vm(
    state: seq<Value>,
    started: bool,
    page: u16,
    last: Option<Snap>,
    nextTask: u64,
    tasks: map<u64, Frame>,
    log: History)

  datatype Error =
    // reported to the caller in correct runs
    | AlreadyStarted | NotStarted | EventNotRegistered | EventValueTooLarge
    | ResultNotString | ResultTooLarge | TaskMissing | RestoreRejected
    | Watchdog | MissingEventValue | StateBudget | IntegerOverflow
    | TaskBudget | TaskIdsExhausted | HostFailed | RevisionExhausted
    // only reachable if the verifier's typing were wrong
    | PcEscaped | StackUnderflow | StateTypeMismatch | BadVariant | OutOfRange | StackBudget

  predicate Internal(e: Error) {
    || e.PcEscaped? || e.StackUnderflow? || e.StateTypeMismatch?
    || e.BadVariant? || e.OutOfRange? || e.StackBudget?
  }

  datatype Outcome = Running(frame: Frame) | Finished | Failed(error: Error)

  function InitialVm(m: Module): Vm {
    Vm(m.initialState, false, 0, None, 1, map[], History([], [], 0, {}, {}, {}, 0, map[]))
  }

  // -------- rendering --------

  function Called(vm: Vm, call: HostCall): Vm {
    vm.(log := vm.log.(calls := vm.log.calls + [call]))
  }

  function Answer(vm: Vm, call: HostCall, host: Host): HostReply {
    host(vm.log.calls + [call])
  }

  function RenderPage(m: Module, vm: Vm, page: u16, host: Host): (Vm, Option<Error>) {
    var vm := vm.(page := page);
    if page >= |m.pages| || !Renderable(m, vm.state, m.pages[page]) then (vm, Some(OutOfRange))
    else
      var next := Snapshot(m, vm.state, m.pages[page]);
      var tree := Revise(vm.last, next);
      if Exhausts(PreviousIndex(vm.last), next) then (vm, Some(RevisionExhausted))
      else if Skips(vm.last, tree) then (vm, None)
      else
        var vm' := Called(vm, ReplaceTree(tree));
        if Answer(vm, ReplaceTree(tree), host).Throws? then (vm', Some(HostFailed))
        else (vm'.(last := Some(tree), log := vm'.log.(delivered := vm'.log.delivered + [tree])), None)
  }

  // -------- one instruction --------

  function Push(f: Frame, v: Value): Frame {
    f.(stack := f.stack + [v], pc := f.pc + 1)
  }

  function Top(f: Frame, k: nat): Value
    requires k < |f.stack|
  {
    f.stack[|f.stack| - 1 - k]
  }

  function Drop(f: Frame, k: nat): Frame
    requires k <= |f.stack|
  {
    f.(stack := f.stack[..|f.stack| - k])
  }

  function SetState(m: Module, vm: Vm, f: Frame, slot: u16): (Vm, Outcome) {
    if |f.stack| < 1 then (vm, Failed(StackUnderflow))
    else if slot >= |vm.state| then (vm, Failed(OutOfRange))
    else
      var v := Top(f, 0);
      if TypeOf(v) != TypeOf(vm.state[slot]) then (vm, Failed(StateTypeMismatch))
      else if StateSize(vm.state) - ValueSize(vm.state[slot]) + ValueSize(v) > m.limits.maxStateBytes
      then (vm, Failed(StateBudget))
      else (vm.(state := vm.state[slot := v]), Running(Drop(f, 1).(pc := f.pc + 1)))
  }

  function Add(f: Frame): Outcome {
    if |f.stack| < 1 then Failed(StackUnderflow)
    else if !Top(f, 0).IntValue? then Failed(BadVariant)
    else if |f.stack| < 2 then Failed(StackUnderflow)
    else if !Top(f, 1).IntValue? then Failed(BadVariant)
    else
      var right, left := Top(f, 0).i, Top(f, 1).i;
      if (right > 0 && left > MAX_I64 - right) || (right < 0 && left < MIN_I64 - right)
      then Failed(IntegerOverflow)
      else Running(Push(Drop(f, 2), IntValue(left + right)))
  }

  function CallEffect(m: Module, vm: Vm, f: Frame, capability: u16, operation: u16, arity: u8, host: Host)
    : (Vm, Outcome)
  {
    if |f.stack| < arity then (vm, Failed(StackUnderflow))
    else if capability >= |m.capabilities| || operation >= |m.constants| then (vm, Failed(OutOfRange))
    else
      var call := Invoke(m.capabilities[capability], m.constants[operation], f.stack[|f.stack| - arity..]);
      var vm' := Called(vm, call);
      match Answer(vm, call, host)
      case Throws => (vm', Failed(HostFailed))
      case Returns(v) =>
        if !v.StringValue? then (vm', Failed(ResultNotString))
        else if ValueSize(v) > m.limits.maxStateBytes then (vm', Failed(ResultTooLarge))
        else (vm', Running(Push(Drop(f, arity), v)))
  }

  function NextId(id: u64): u64 {
    if id == MAX_U64 then 0 else id + 1
  }

  function StartEffect(m: Module, vm: Vm, f: Frame, capability: u16, operation: u16, arity: u8, host: Host)
    : (Vm, Outcome)
  {
    if |vm.tasks| >= m.limits.maxTasks then (vm, Failed(TaskBudget))
    else if |f.stack| < arity then (vm, Failed(StackUnderflow))
    else
      var id := vm.nextTask;
      var vm1 := vm.(nextTask := NextId(id), log := vm.log.(starts := vm.log.starts + 1));
      if id == 0 || vm1.nextTask == 0 then (vm1, Failed(TaskIdsExhausted))
      else if capability >= |m.capabilities| || operation >= |m.constants| then (vm1, Failed(OutOfRange))
      else
        Launch(vm1, BeginAsync(id, m.capabilities[capability], m.constants[operation],
                               f.stack[|f.stack| - arity..]),
               Drop(f, arity).(pc := f.pc + 1), host)
  }

  // Parks the frame under its task ID and tells the host; a refusal removes it again.
  function Launch(vm: Vm, call: HostCall, parked: Frame, host: Host): (Vm, Outcome)
    requires call.BeginAsync?
  {
    var vm' := Called(vm, call);
    if Answer(vm, call, host).Throws? then
      (vm'.(tasks := vm'.tasks - {call.task}, log := vm'.log.(refused := vm'.log.refused + {call.task})),
       Failed(HostFailed))
    else
      (vm'.(tasks := if call.task in vm'.tasks then vm'.tasks else vm'.tasks[call.task := parked]), Finished)
  }

  function Execute(m: Module, vm: Vm, f: Frame, i: Instruction, host: Host): (Vm, Outcome) {
    match i
    case Constant(v) => (vm, Running(Push(f, v)))
    case EventValue =>
      if f.eventValue.None? then (vm, Failed(MissingEventValue))
      else (vm, Running(Push(f, StringValue(f.eventValue.value))))
    case StateGet(slot) =>
      if slot >= |vm.state| then (vm, Failed(OutOfRange)) else (vm, Running(Push(f, vm.state[slot])))
    case StateSet(slot) => SetState(m, vm, f, slot)
    case IntegerAdd => (vm, Add(f))
    case Equal =>
      if |f.stack| < 2 then (vm, Failed(StackUnderflow))
      else (vm, Running(Push(Drop(f, 2), BoolValue(Top(f, 1) == Top(f, 0)))))
    case Jump(t) => (vm, Running(f.(pc := t)))
    case JumpIfFalse(t) =>
      if |f.stack| < 1 then (vm, Failed(StackUnderflow))
      else if !Top(f, 0).BoolValue? then (vm, Failed(BadVariant))
      else (vm, Running(Drop(f, 1).(pc := if Top(f, 0).b then f.pc + 1 else t)))
    case Effect(c, o, n) => CallEffect(m, vm, f, c, o, n, host)
    case AsyncEffect(c, o, n) => StartEffect(m, vm, f, c, o, n, host)
    case Pop =>
      if |f.stack| < 1 then (vm, Failed(StackUnderflow)) else (vm, Running(Drop(f, 1).(pc := f.pc + 1)))
    case Render(page) =>
      var (vm', e) := RenderPage(m, vm, page, host);
      if e.Some? then (vm', Failed(e.value)) else (vm', Running(f.(pc := f.pc + 1)))
    case Halt => (vm, Finished)
  }

  // One round of the interpreter loop.
  function Step(m: Module, vm: Vm, f: Frame, host: Host): (r: (Vm, Outcome))
    ensures r.1.Running? ==> r.1.frame.executed == f.executed + 1 <= m.limits.maxInstructions
  {
    if f.handler >= |m.handlers| then (vm, Failed(OutOfRange))
    else if f.pc >= |m.handlers[f.handler]| then (vm, Failed(PcEscaped))
    else if f.executed + 1 > m.limits.maxInstructions then (vm, Failed(Watchdog))
    else
      var f1 := f.(executed := f.executed + 1);
      var (vm', o) := Execute(m, Charged(vm, f.origin), f1, m.handlers[f.handler][f.pc], host);
      if o.Running? && |o.frame.stack| > m.limits.maxStack then (vm', Failed(StackBudget)) else (vm', o)
  }

  // One more instruction on the account of the event it belongs to.
  function Charged(vm: Vm, origin: nat): Vm {
    var so := if origin in vm.log.spent then vm.log.spent[origin] else 0;
    vm.(log := vm.log.(spent := vm.log.spent[origin := so + 1]))
  }

  // The watchdog makes every call terminate, looping bytecode included.
  function Run(m: Module, vm: Vm, f: Frame, host: Host): (Vm, Option<Error>)
    decreases m.limits.maxInstructions - f.executed
  {
    match Step(m, vm, f, host)
    case (vm', Running(f')) => Run(m, vm', f', host)
    case (vm', Finished) => (vm', None)
    case (vm', Failed(e)) => (vm', Some(e))
  }

  // -------- one event --------

  datatype Event =
    | Start
    | Dispatch(node: u32, event: EventType, value: Option<Bytes>)
    | Complete(task: u64, result: Value)
    | CancelAll
    | Restore(snapshot: Bytes)

  function FirstBinding(bs: seq<EventBinding>, event: EventType): Option<u16> {
    if bs == [] then None
    else if bs[0].event == event then Some(bs[0].handler)
    else FirstBinding(bs[1..], event)
  }

  function FindEvent(n: UiNode, node: u32, event: EventType): Option<u16>
    decreases n, 1
  {
    var own := if n.id == node then FirstBinding(n.events, event) else None;
    if own.Some? then own else FindEventAll(n.children, node, event)
  }

  function FindEventAll(ns: seq<UiNode>, node: u32, event: EventType): Option<u16>
    decreases ns, 0
  {
    if ns == [] then None
    else
      var first := FindEvent(ns[0], node, event);
      if first.Some? then first else FindEventAll(ns[1..], node, event)
  }

  // A fresh frame; the event gets the next number.
  function EnterHandler(m: Module, vm: Vm, handler: u16, value: Option<Bytes>, host: Host): (Vm, Option<Error>) {
    var f := Frame(handler, 0, 0, [], value, vm.log.entries);
    Run(m, vm.(log := vm.log.(entries := vm.log.entries + 1)), f, host)
  }

  function StartUp(m: Module, vm: Vm, host: Host): (Vm, Option<Error>) {
    if vm.started then (vm, Some(AlreadyStarted))
    else
      var vm' := vm.(started := true);
      match m.entryHandler
      case Some(h) => EnterHandler(m, vm', h, None, host)
      case None => RenderPage(m, vm', m.entryPage, host)
  }

  function DispatchEvent(m: Module, vm: Vm, node: u32, event: EventType, value: Option<Bytes>, host: Host)
    : (Vm, Option<Error>)
  {
    if !vm.started then (vm, Some(NotStarted))
    else if vm.page >= |m.pages| then (vm, Some(OutOfRange))
    else
      match FindEvent(m.pages[vm.page], node, event)
      case None => (vm, Some(EventNotRegistered))
      case Some(h) =>
        if value.Some? && |value.value| > m.limits.maxStateBytes then (vm, Some(EventValueTooLarge))
        else EnterHandler(m, vm, h, value, host)
  }

  function CompleteEffect(m: Module, vm: Vm, task: u64, result: Value, host: Host): (Vm, Option<Error>) {
    if !vm.started then (vm, Some(NotStarted))
    else if !result.StringValue? then (vm, Some(ResultNotString))
    else if ValueSize(result) > m.limits.maxStateBytes then (vm, Some(ResultTooLarge))
    else if task !in vm.tasks then (vm, Some(TaskMissing))
    else
      var f := vm.tasks[task];
      var vm' := vm.(tasks := vm.tasks - {task}, log := vm.log.(resumed := vm.log.resumed + {task}));
      Run(m, vm', f.(stack := f.stack + [result]), host)
  }

  function CancelTasks(vm: Vm): Vm {
    vm.(tasks := map[], log := vm.log.(cancelled := vm.log.cancelled + vm.tasks.Keys))
  }

  function RestoreInto(m: Module, vm: Vm, snapshot: Bytes): (Vm, Option<Error>) {
    if vm.started then (vm, Some(AlreadyStarted))
    else
      match RestoreState(m, vm.state, snapshot)
      case None => (vm, Some(RestoreRejected))
      case Some(state) => (vm.(state := state), None)
  }

  function Handle(m: Module, vm: Vm, e: Event, host: Host): (Vm, Option<Error>) {
    match e
    case Start => StartUp(m, vm, host)
    case Dispatch(n, ev, v) => DispatchEvent(m, vm, n, ev, v, host)
    case Complete(t, r) => CompleteEffect(m, vm, t, r, host)
    case CancelAll => (CancelTasks(vm), None)
    case Restore(b) => RestoreInto(m, vm, b)
  }

  // A whole run: the errors of earlier events do not stop later ones.
  function RunAll(m: Module, vm: Vm, es: seq<Event>, host: Host): Vm
    decreases |es|
  {
    if es == [] then vm else RunAll(m, Handle(m, vm, es[0], host).0, es[1..], host)
  }

  function After(m: Module, es: seq<Event>, host: Host): Vm {
    RunAll(m, InitialVm(m), es, host)
  }
}

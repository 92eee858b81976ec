/** The runtime object.  Its methods run the runtime's loops over its fields and are
    proved to do exactly what the interpreter's specification says. */
module Runtime {
  import opened Basics
  import opened ByteCodec
  import opened Bytecode
  import opened UiTree
  import opened StateCodec
  import opened Interpreter

  // read_value_type and the payload behind it.
  method ReadValue(reader: Reader) returns (r: Option<Value>)
    requires reader.Valid()
    modifies reader
    ensures reader.Valid() && Took(r, GetValue(old(reader.Rest())), reader.Rest())
  {
    var tag := reader.U8();
    if tag.None? {
      return None;
    }
    match tag.value
    case 1 =>
      var i := reader.I64();
      return if i.Some? then Some(IntValue(i.value)) else None;
    case 2 =>
      var raw := reader.U8();
      return if raw.Some? && raw.value <= 1 then Some(BoolValue(raw.value == 1)) else None;
    case 3 =>
      var s := reader.Text();
      return if s.Some? then Some(StringValue(s.value)) else None;
    case _ => return None;
  }

  class Runtime {
    const loaded: Module
    var state: seq<Value>
    var started: bool
    var currentPage: u16
    var lastSnapshot: Option<Snap>
    var nextTaskId: u64
    var tasks: map<u64, Frame>
    var log: History

    function View(): Vm
      reads this
    {
      Vm(state, started, currentPage, lastSnapshot, nextTaskId, tasks, log)
    }

    constructor (m: Module)
      ensures loaded == m && View() == InitialVm(m)
    {
      loaded, state := m, m.initialState;
      started, currentPage, lastSnapshot, nextTaskId, tasks := false, 0, None, 1, map[];
      log := History([], [], 0, {}, {}, {}, 0, map[]);
    }

    // -------- rendering --------

    method Render(page: u16, host: Host) returns (e: Option<Error>)
      modifies this
      ensures (View(), e) == RenderPage(loaded, old(View()), page, host)
    {
      currentPage := page;
      if page >= |loaded.pages| || !Renderable(loaded, state, loaded.pages[page]) {
        return Some(OutOfRange);
      }
      var next := Snapshot(loaded, state, loaded.pages[page]);
      var previousById: map<u32, Snap> := map[];
      if lastSnapshot.Some? {
        previousById := IndexNodes(lastSnapshot.value, previousById);
      }
      assert previousById == PreviousIndex(lastSnapshot);
      var revised := AssignRevisions(next, previousById);
      if revised.None? {
        return Some(RevisionExhausted);
      }
      var tree := revised.value;
      if lastSnapshot.Some? && lastSnapshot.value.kind == tree.kind && lastSnapshot.value.id == tree.id
         && lastSnapshot.value.revision == tree.revision
      {
        return None;
      }
      log := log.(calls := log.calls + [ReplaceTree(tree)]);
      if host(log.calls).Throws? {
        return Some(HostFailed);
      }
      lastSnapshot := Some(tree);
      log := log.(delivered := log.delivered + [tree]);
      return None;
    }

    // -------- the interpreter loop --------

    method Run(frame: Frame, host: Host) returns (e: Option<Error>)
      modifies this
      ensures (View(), e) == Interpreter.Run(loaded, old(View()), frame, host)
    {
      var f := frame;
      while true
        invariant Interpreter.Run(loaded, View(), f, host) == Interpreter.Run(loaded, old(View()), frame, host)
        decreases loaded.limits.maxInstructions - f.executed
      {
        ghost var before := View();
        if f.handler >= |loaded.handlers| {
          return Some(OutOfRange);
        }
        var code := loaded.handlers[f.handler];
        if f.pc >= |code| {
          return Some(PcEscaped);
        }
        if f.executed + 1 > loaded.limits.maxInstructions {
          return Some(Watchdog);
        }
        log := log.(spent := log.spent[f.origin := (if f.origin in log.spent then log.spent[f.origin] else 0) + 1]);
        assert View() == Charged(before, f.origin);
        var o := Perform(f.(executed := f.executed + 1), code[f.pc], host);
        match o {
          case Finished => return None;
          case Failed(error) => return Some(error);
          case Running(g) =>
            if |g.stack| > loaded.limits.maxStack {
              return Some(StackBudget);
            }
            assert Step(loaded, before, f, host) == (View(), Running(g));
            f := g;
        }
      }
    }

    method Perform(frame: Frame, i: Instruction, host: Host) returns (o: Outcome)
      modifies this
      ensures (View(), o) == Interpreter.Execute(loaded, old(View()), frame, i, host)
    {
      var f := frame;
      match i
      case Constant(v) =>
        return Running(f.(stack := f.stack + [v], pc := f.pc + 1));
      case EventValue =>
        if f.eventValue.None? {
          return Failed(MissingEventValue);
        }
        return Running(f.(stack := f.stack + [StringValue(f.eventValue.value)], pc := f.pc + 1));
      case StateGet(slot) =>
        if slot >= |state| {
          return Failed(OutOfRange);
        }
        return Running(f.(stack := f.stack + [state[slot]], pc := f.pc + 1));
      case StateSet(slot) =>
        o := Assignment(f, slot);
      case IntegerAdd =>
        o := Add(f);
      case Equal =>
        if |f.stack| < 2 {
          return Failed(StackUnderflow);
        }
        var right, left := f.stack[|f.stack| - 1], f.stack[|f.stack| - 2];
        return Running(f.(stack := f.stack[..|f.stack| - 2] + [BoolValue(left == right)], pc := f.pc + 1));
      case Jump(target) =>
        return Running(f.(pc := target));
      case JumpIfFalse(target) =>
        if |f.stack| < 1 {
          return Failed(StackUnderflow);
        }
        var condition := f.stack[|f.stack| - 1];
        if !condition.BoolValue? {
          return Failed(BadVariant);
        }
        return Running(f.(stack := f.stack[..|f.stack| - 1], pc := if condition.b then f.pc + 1 else target));
      case Effect(capability, operation, arity) =>
        o := CallCapability(f, capability, operation, arity, host);
      case AsyncEffect(capability, operation, arity) =>
        o := BeginTask(f, capability, operation, arity, host);
      case Pop =>
        if |f.stack| < 1 {
          return Failed(StackUnderflow);
        }
        return Running(f.(stack := f.stack[..|f.stack| - 1], pc := f.pc + 1));
      case Render(page) =>
        var e := Render(page, host);
        return if e.Some? then Failed(e.value) else Running(f.(pc := f.pc + 1));
      case Halt =>
        return Finished;
    }

    method StateBytes() returns (total: nat)
      ensures total == StateSize(state)
    {
      total := 0;
      for i := 0 to |state|
        invariant total + StateSize(state[i..]) == StateSize(state)
      {
        assert state[i..][0] == state[i] && state[i..][1..] == state[i + 1..];
        total := total + ValueSize(state[i]);
      }
    }

    method Assignment(f: Frame, slot: u16) returns (o: Outcome)
      modifies this
      ensures (View(), o) == SetState(loaded, old(View()), f, slot)
    {
      if |f.stack| < 1 {
        return Failed(StackUnderflow);
      }
      var v := f.stack[|f.stack| - 1];
      if slot >= |state| {
        return Failed(OutOfRange);
      }
      if TypeOf(v) != TypeOf(state[slot]) {
        return Failed(StateTypeMismatch);
      }
      var size := StateBytes();
      if size - ValueSize(state[slot]) + ValueSize(v) > loaded.limits.maxStateBytes {
        return Failed(StateBudget);
      }
      state := state[slot := v];
      return Running(f.(stack := f.stack[..|f.stack| - 1], pc := f.pc + 1));
    }

    // Arguments reach the capability in the order they were pushed.
    method CallCapability(f: Frame, capability: u16, operation: u16, arity: u8, host: Host) returns (o: Outcome)
      modifies this
      ensures (View(), o) == CallEffect(loaded, old(View()), f, capability, operation, arity, host)
    {
      var arguments, rest := PopArguments(f.stack, arity);
      if arguments.None? {
        return Failed(StackUnderflow);
      }
      if capability >= |loaded.capabilities| || operation >= |loaded.constants| {
        return Failed(OutOfRange);
      }
      log := log.(calls := log.calls
                  + [Invoke(loaded.capabilities[capability], loaded.constants[operation], arguments.value)]);
      var reply := host(log.calls);
      if reply.Throws? {
        return Failed(HostFailed);
      }
      if !reply.value.StringValue? {
        return Failed(ResultNotString);
      }
      if ValueSize(reply.value) > loaded.limits.maxStateBytes {
        return Failed(ResultTooLarge);
      }
      return Running(f.(stack := rest + [reply.value], pc := f.pc + 1));
    }

    // Pops the arguments one by one, then reverses them.
    method PopArguments(stack: seq<Value>, arity: u8) returns (arguments: Option<seq<Value>>, rest: seq<Value>)
      ensures arguments.Some? <==> arity <= |stack|
      ensures arguments.Some? ==> arguments.value == stack[|stack| - arity..] && rest == stack[..|stack| - arity]
    {
      rest := stack;
      var popped: seq<Value> := [];
      for i := 0 to arity
        invariant i <= |stack| && rest == stack[..|stack| - i]
        invariant |popped| == i && forall k :: 0 <= k < i ==> popped[k] == stack[|stack| - 1 - k]
      {
        if |rest| == 0 {
          return None, rest;
        }
        popped := popped + [rest[|rest| - 1]];
        rest := rest[..|rest| - 1];
      }
      var reversed := seq(|popped|, k requires 0 <= k < |popped| => popped[|popped| - 1 - k]);
      assert reversed == stack[|stack| - arity..];
      return Some(reversed), rest;
    }

    method BeginTask(f: Frame, capability: u16, operation: u16, arity: u8, host: Host) returns (o: Outcome)
      modifies this
      ensures (View(), o) == StartEffect(loaded, old(View()), f, capability, operation, arity, host)
    {
      if |tasks| >= loaded.limits.maxTasks {
        return Failed(TaskBudget);
      }
      var arguments, rest := PopArguments(f.stack, arity);
      if arguments.None? {
        return Failed(StackUnderflow);
      }
      var id := nextTaskId;
      nextTaskId := if nextTaskId == MAX_U64 then 0 else nextTaskId + 1;
      log := log.(starts := log.starts + 1);
      if id == 0 || nextTaskId == 0 {
        return Failed(TaskIdsExhausted);
      }
      if capability >= |loaded.capabilities| || operation >= |loaded.constants| {
        return Failed(OutOfRange);
      }
      o := LaunchTask(BeginAsync(id, loaded.capabilities[capability], loaded.constants[operation], arguments.value),
                      f.(stack := rest, pc := f.pc + 1), host);
    }

    method LaunchTask(call: HostCall, parked: Frame, host: Host) returns (o: Outcome)
      requires call.BeginAsync?
      modifies this
      ensures (View(), o) == Launch(old(View()), call, parked, host)
    {
      ghost var before := tasks;
      if call.task !in tasks {
        tasks := tasks[call.task := parked];
      }
      log := log.(calls := log.calls + [call]);
      if host(log.calls).Throws? {
        tasks := tasks - {call.task};
        assert tasks == before - {call.task};
        log := log.(refused := log.refused + {call.task});
        return Failed(HostFailed);
      }
      return Finished;
    }

    // -------- the public operations --------

    method Execute(handler: u16, value: Option<Bytes>, host: Host) returns (e: Option<Error>)
      modifies this
      ensures (View(), e) == EnterHandler(loaded, old(View()), handler, value, host)
    {
      var frame := Frame(handler, 0, 0, [], value, log.entries);
      log := log.(entries := log.entries + 1);
      e := Run(frame, host);
    }

    method Start(host: Host) returns (e: Option<Error>)
      modifies this
      ensures (View(), e) == Handle(loaded, old(View()), Event.Start, host)
    {
      if started {
        return Some(AlreadyStarted);
      }
      started := true;
      if loaded.entryHandler.Some? {
        e := Execute(loaded.entryHandler.value, None, host);
      } else {
        e := Render(loaded.entryPage, host);
      }
    }

    method Dispatch(node: u32, event: EventType, value: Option<Bytes>, host: Host) returns (e: Option<Error>)
      modifies this
      ensures (View(), e) == Handle(loaded, old(View()), Event.Dispatch(node, event, value), host)
    {
      if !started {
        return Some(NotStarted);
      }
      if currentPage >= |loaded.pages| {
        return Some(OutOfRange);
      }
      var handler := FindEvent(loaded.pages[currentPage], node, event);
      if handler.None? {
        return Some(EventNotRegistered);
      }
      if value.Some? && |value.value| > loaded.limits.maxStateBytes {
        return Some(EventValueTooLarge);
      }
      e := Execute(handler.value, value, host);
    }

    method CompleteEffect(task: u64, result: Value, host: Host) returns (e: Option<Error>)
      modifies this
      ensures (View(), e) == Handle(loaded, old(View()), Event.Complete(task, result), host)
    {
      if !started {
        return Some(NotStarted);
      }
      if !result.StringValue? {
        return Some(ResultNotString);
      }
      if ValueSize(result) > loaded.limits.maxStateBytes {
        return Some(ResultTooLarge);
      }
      if task !in tasks {
        return Some(TaskMissing);
      }
      var frame := tasks[task];
      tasks := tasks - {task};
      log := log.(resumed := log.resumed + {task});
      frame := frame.(stack := frame.stack + [result]);
      e := Run(frame, host);
    }

    method CancelAllTasks()
      modifies this
      ensures View() == CancelTasks(old(View()))
      ensures tasks == map[] && forall t :: t in old(tasks) ==> t in log.cancelled
    {
      log := log.(cancelled := log.cancelled + tasks.Keys);
      tasks := map[];
    }

    // -------- persistence --------

    // Appends the fields one by one; None is "too large to persist" or over budget.
    method SnapshotState() returns (output: Option<Bytes>)
      requires |state| <= MAX_U16 && (StableIds(loaded) ==> |loaded.stateIds| == |state|)
      ensures output == StateCodec.SnapshotState(loaded, state)
    {
      hide Put16, Put64, PutValue, Persistable;
      var bytes := MAGIC + Put16(if StableIds(loaded) then 2 else 1) + Put64(loaded.stateSchema) + Put16(|state|);
      ghost var persistable := forall i :: 0 <= i < |state| ==> Persistable(state[i]);
      for i := 0 to |state|
        invariant forall j :: 0 <= j < i ==> Persistable(state[j])
        invariant persistable ==> bytes + FieldsFrom(loaded, state, i) == SnapshotBytes(loaded, state)
      {
        if !Persistable(state[i]) {
          return None;
        }
        ghost var before := bytes;
        if StableIds(loaded) {
          bytes := bytes + Put64(loaded.stateIds[i]);
        }
        bytes := bytes + PutValue(state[i]);
        assert persistable ==> bytes + FieldsFrom(loaded, state, i + 1) == before + FieldsFrom(loaded, state, i);
      }
      assert bytes + FieldsFrom(loaded, state, |state|) == bytes;
      if |bytes| > loaded.limits.maxStateBytes + |state| * 11 + 16 {
        return None;
      }
      return Some(bytes);
    }

    method ReadHeader(reader: Reader) returns (header: Option<Header>)
      requires reader.Valid()
      modifies reader
      ensures reader.Valid() && Took(header, GetHeader(old(reader.Rest())), reader.Rest())
    {
      var magic := reader.TakeBytes(4);
      if magic.None? || magic.value != MAGIC {
        return None;
      }
      var version := reader.U16();
      if version.None? {
        return None;
      }
      var schema := reader.U64();
      if schema.None? {
        return None;
      }
      var count := reader.U16();
      return if count.Some? then Some(Header(version.value, schema.value, count.value)) else None;
    }

    // A rejected snapshot leaves the runtime as it was.
    method RestoreState(snapshot: Bytes) returns (e: Option<Error>)
      modifies this
      ensures (View(), e) == RestoreInto(loaded, old(View()), snapshot)
    {
      if started {
        return Some(AlreadyStarted);
      }
      var reader := new Reader(snapshot);
      var header := ReadHeader(reader);
      if header.None? {
        return Some(RestoreRejected);
      }
      var restored: Option<seq<Value>> := None;
      if header.value.version == 1 {
        restored := RestoreOrdered(reader, header.value.schema, header.value.count);
      } else if header.value.version == 2 && |loaded.stateIds| == |state| {
        restored := RestoreByIdentity(reader, header.value.count);
      }
      if restored.None? {
        return Some(RestoreRejected);
      }
      state := restored.value;
      return None;
    }

    method RestoreOrdered(reader: Reader, schema: u64, count: u16) returns (r: Option<seq<Value>>)
      requires reader.Valid()
      modifies reader
      ensures r == RestoreV1(loaded, state, schema, count, old(reader.Rest()))
    {
      hide GetValue, TypeOf, RestoredSize;
      if schema != loaded.stateSchema || count != |state| {
        return None;
      }
      var restored: seq<Value> := [];
      var used := 0;
      var budget := loaded.limits.maxStateBytes;
      ghost var whole := RestoreFields(state, 0, budget, reader.Rest());
      assert state[0..] == state;
      PrependNone(whole);
      for i := 0 to |state|
        invariant reader.Valid() && used >= 0
        invariant whole == Prepended(restored, RestoreFields(state[i..], used, budget, reader.Rest()))
      {
        ghost var before := reader.Rest();
        var v := ReadValue(reader);
        assert state[i..][0] == state[i] && state[i..][1..] == state[i + 1..];
        if v.None? || TypeOf(v.value) != TypeOf(state[i]) || used + RestoredSize(v.value) > budget {
          return None;
        }
        PrependOne(restored, v.value, RestoreFields(state[i + 1..], used + RestoredSize(v.value), budget, reader.Rest()));
        restored := restored + [v.value];
        used := used + RestoredSize(v.value);
      }
      assert restored + [] == restored;
      var empty := reader.Empty();
      return if empty then Some(restored) else None;
    }

    method RestoreByIdentity(reader: Reader, count: u16) returns (r: Option<seq<Value>>)
      requires reader.Valid() && |loaded.stateIds| == |state|
      modifies reader
      ensures r == RestoreV2(loaded, count, old(reader.Rest()))
    {
      hide Get64, GetValue, Compatible, AnyMatch;
      if |loaded.stateIds| != |loaded.initialState| || count > 4096 {
        return None;
      }
      var persisted: map<u64, Value> := map[];
      var used := 0;
      var budget := loaded.limits.maxStateBytes;
      ghost var whole := RestoreEntries(count, map[], 0, budget, reader.Rest());
      for i := 0 to count
        invariant reader.Valid() && used >= 0
        invariant whole == RestoreEntries(count - i, persisted, used, budget, reader.Rest())
      {
        var id := reader.U64();
        if id.None? || id.value == 0 || id.value in persisted {
          return None;
        }
        var v := ReadValue(reader);
        if v.None? || used + RestoredSize(v.value) > budget {
          return None;
        }
        used := used + RestoredSize(v.value);
        persisted := persisted[id.value := v.value];
      }
      var empty := reader.Empty();
      if !empty {
        return None;
      }
      r := Migrate(persisted, count);
    }

    method Migrate(persisted: map<u64, Value>, count: u16) returns (r: Option<seq<Value>>)
      requires |loaded.stateIds| == |loaded.initialState|
      ensures r == if !Compatible(loaded, persisted) then None
                   else if count != 0 && loaded.stateIds != [] && !AnyMatch(loaded, persisted) then None
                   else Some(Migrated(loaded, persisted))
    {
      var migrated := loaded.initialState;
      var matched := 0;
      for i := 0 to |loaded.stateIds|
        invariant |migrated| == |loaded.initialState|
        invariant forall j :: 0 <= j < i ==>
          migrated[j] == Pick(loaded.stateIds[j], loaded.initialState[j], persisted)
        invariant forall j :: i <= j < |migrated| ==> migrated[j] == loaded.initialState[j]
        invariant forall j :: 0 <= j < i && loaded.stateIds[j] in persisted ==>
          TypeOf(persisted[loaded.stateIds[j]]) == TypeOf(loaded.initialState[j])
        invariant matched >= 0 && (matched > 0 <==> exists j :: 0 <= j < i && loaded.stateIds[j] in persisted)
      {
        var id := loaded.stateIds[i];
        if id in persisted {
          if TypeOf(persisted[id]) != TypeOf(migrated[i]) {
            return None;
          }
          migrated := migrated[i := persisted[id]];
          matched := matched + 1;
        }
      }
      if count != 0 && |loaded.stateIds| > 0 && matched == 0 {
        return None;
      }
      assert migrated == Migrated(loaded, persisted);
      return Some(migrated);
    }
  }

  // The parse of all fields, from the fields taken so far and the parse of the rest.
  ghost function Prepended(done: seq<Value>, p: Parsed<seq<Value>>): Parsed<seq<Value>> {
    match p case Fail => Fail case Done(vs, rest) => Done(done + vs, rest)
  }

  lemma {:induction false} PrependNone(p: Parsed<seq<Value>>)
    ensures Prepended([], p) == p
  {
    if p.Done? {
      assert [] + p.value == p.value;
    }
  }

  lemma {:induction false} PrependOne(done: seq<Value>, v: Value, p: Parsed<seq<Value>>)
    ensures Prepended(done + [v], p) == Prepended(done, Prepended([v], p))
  {
    if p.Done? {
      assert done + [v] + p.value == done + ([v] + p.value);
    }
  }
}

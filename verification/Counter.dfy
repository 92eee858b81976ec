/** The sample counter, reduced to its button: the description builds for every format,
    its payload loads, and every tap adds one to what the hosts show. */
module Counter {
  import opened Basics
  import opened Bytecode
  import opened UiTree
  import opened Interpreter
  import opened FrameTypes
  import opened HandlerVerifier
  import opened Payload
  import opened PayloadRoundTrip
  import opened Templates
  import opened Dsl
  import opened SourceTypes
  import opened Builds
  import opened CompiledModules
  import opened Lookups
  import opened UiDelta
  import opened RenderRuns
  import Compiler

  const COUNT: Bytes := Ascii("count")
  const INCREMENT: Bytes := Ascii("increment")
  const MAIN: Bytes := Ascii("main")
  const BUTTON: Bytes := Ascii("counter_increment")
  const TEXT: Bytes := Ascii("{count}")

  // -------- the description --------

  function Body(): seq<SourceInstruction> {
    [GetState(COUNT), Const(IntValue(1)), SourceInstruction.Add, SetState(COUNT), Show(MAIN)]
  }

  function Button(): SourceNode {
    SourceNode(8, BUTTON, [SourceProperty(1, TEXT)], [SourceEvent(TAP, INCREMENT)], [])
  }

  function CounterSource(): Source {
    Source(5, 5, 2, 4, Ascii("counter.home"), Ascii("com.example.protected"), Ascii("demo"), Ascii("enterprise"), 1, 1,
           Budget(1000, 32, 4096, 100, 8), [], [], [], [StateSpec(COUNT, 1, IntValue(0))],
           [HandlerSpec(INCREMENT, Body())], [PageSpec(MAIN, Button())], MAIN, None)
  }

  // -------- the module it compiles to --------

  function Increment(): Code {
    [StateGet(0), Constant(IntValue(1)), IntegerAdd, StateSet(0), Render(0), Halt]
  }

  function Page(id: u32): UiNode {
    UiNode(8, id, [PropertyExpression(1, [StateText(0)])], [EventBinding(TAP, 0)], [])
  }

  function CounterModule(format: u16, id: u32): Module {
    ModuleOf(CounterSource(), format, [Increment()], [Page(id)], 0, None)
  }

  lemma {:induction false} TextPieces()
    ensures Pieces(TEXT) == [Hole(COUNT)]
  {
    assert TEXT[1..6] == COUNT;
    PlaceholderShape(TEXT, 0, 7);
    assert PlaceholderAt(TEXT, 0) == Some(7) && NameIn(TEXT, 0) == TEXT[1..6];
    hide PlaceholderAt, NameIn;
    assert PiecesFrom(TEXT, 7, 7) == [];
  }

  // The description names one state, handler and page, and no string enters the pool.
  lemma {:induction false} CounterTables(format: u16)
    ensures var t := TablesOf(CounterSource(), format);
      t.states == [COUNT] && t.handlers == [INCREMENT] && t.pages == [MAIN] && t.capabilities == []
    ensures Initials(CounterSource()) == [IntValue(0)] && TypesOf(Initials(CounterSource())) == [Integer]
    ensures Roots(CounterSource().pages) == [Button()]
  {
  }

  lemma {:induction false} CounterPool()
    ensures StringsOf(CounterSource()) == [] && Pool(CounterSource()) == []
  {
    CounterTables(1);
    NoStrings();
    ButtonStrings();
    var s := CounterSource();
    assert s.states[1..] == [] && s.handlers[1..] == [] && [Button()][1..] == [];
    assert StateStrings(s.states) == ValueStrings(IntValue(0)) + StateStrings([]);
    assert HandlerStrings(s.handlers) == BodyStrings(Body()) + HandlerStrings([]);
    assert NodeStringsAll([Button()]) == NodeStrings(Button()) + NodeStringsAll([]);
  }

  lemma {:induction false} NoStrings()
    ensures BodyStrings(Body()) == []
  {
    var b := Body();
    assert BodyStrings(b) == InstructionStrings(b[0]) + BodyStrings(b[1..]);
    assert BodyStrings(b[1..]) == InstructionStrings(b[1]) + BodyStrings(b[2..]) by { assert b[1..][1..] == b[2..]; }
    assert BodyStrings(b[2..]) == InstructionStrings(b[2]) + BodyStrings(b[3..]) by { assert b[2..][1..] == b[3..]; }
    assert BodyStrings(b[3..]) == InstructionStrings(b[3]) + BodyStrings(b[4..]) by { assert b[3..][1..] == b[4..]; }
    assert BodyStrings(b[4..]) == InstructionStrings(b[4]) + BodyStrings(b[5..]) by { assert b[4..][1..] == b[5..]; }
  }

  lemma {:induction false} ButtonStrings()
    ensures NodeStrings(Button()) == []
  {
    TextPieces();
    hide Pieces;
    var ps := Button().properties;
    assert ps[1..] == [] && PropertyStrings(ps) == TextsOf([Hole(COUNT)]) + PropertyStrings([]);
    assert [Hole(COUNT)][1..] == [] && TextsOf([Hole(COUNT)]) == TextsOf([]);
  }

  // -------- it builds --------

  lemma {:induction false} BodyTransfers(t: Tables, types: seq<ValueType>)
    requires t.states == [COUNT] && types == [Integer]
    ensures var body, empty: Stack := Body(), [];
      && SourceTransfer(t, types, body[0], empty) == Some([Integer])
      && SourceTransfer(t, types, body[1], [Integer]) == Some([Integer, Integer])
      && SourceTransfer(t, types, body[2], [Integer, Integer]) == Some([Integer])
      && SourceTransfer(t, types, body[3], [Integer]) == Some(empty)
      && SourceTransfer(t, types, body[4], empty) == Some(empty) == SourceTransfer(t, types, Stop, empty)
  {
    NamedIndex(t.states, 0, COUNT);
    var empty: Stack := [];
    assert empty + [Integer] == [Integer] && types + [Integer] == [Integer, Integer];
    hide Ascii;
  }

  lemma {:induction false} CounterTyped(format: u16, bound: Option<nat>)
    requires bound.Some? ==> bound.value >= 2
    ensures WellTyped(TablesOf(CounterSource(), format), [Integer], bound, Closed(Body()))
  {
    CounterTables(format);
    var t, types: seq<ValueType> := TablesOf(CounterSource(), format), [Integer];
    BodyTransfers(t, types);
    var T: Typing := [Some([]), Some([Integer]), Some([Integer, Integer]), Some([Integer]), Some([]), Some([])];
    var body := Closed(Body());
    assert body == Body() + [Stop];
    hide TablesOf, SourceTransfer, Ascii;
    forall pc | 0 <= pc < |body| ensures StepTypedAs(t, types, bound, body, T, pc) {
    }
    assert TypedAs(t, types, bound, body, T);
  }

  lemma {:induction false} CounterPolicy(format: u16)
    requires 1 <= format <= 5
    ensures var s := CounterSource(); Dictionaries(s) && PolicyOk(s, format) && BindingRule(s) && BudgetOk(s.budget)
  {
    CounterTables(format);
    CounterTables(1);
    hide Ascii;
    assert ReaderNames(CounterSource().handlers) == {};
  }

  lemma {:induction false} CounterIds(hash: Bytes -> u32)
    ensures SourceIdsAll(hash, Roots(CounterSource().pages)) == [hash(BUTTON)]
  {
    CounterTables(1);
    assert [Button()][1..] == [];
    assert SourceIds(hash, Button()) == [hash(BUTTON)] + SourceIdsAll(hash, []);
  }

  lemma {:induction false} CounterNamed(format: u16)
    ensures var s, t := CounterSource(), TablesOf(CounterSource(), format);
      && s.entryPage in t.pages
      && Compiler.HandlersAcceptable(t, TypesOf(Initials(s)), s.handlers)
      && NodeSourceOk(t, Button())
  {
    var s, t := CounterSource(), TablesOf(CounterSource(), format);
    CounterTables(format);
    CounterTyped(format, None);
    TextPieces();
    hide Pieces, WellTyped, TablesOf, Closed, Ascii, TypesOf, Initials;
    assert BodyOk(t, Body());
  }

  lemma {:induction false} CounterWritable()
    ensures Writable(CounterSource())
  {
    CounterPool();
    TextPieces();
    hide Pieces, Pool, StringsOf;
    assert SourceCountable(Button());
  }

  lemma {:induction false} CounterBuilds(format: u16, hash: Bytes -> u32)
    requires 1 <= format <= 5
    ensures var s := CounterSource(); Dictionaries(s) && Acceptable(s, format, hash) && Writable(s)
  {
    CounterPolicy(format);
    CounterIds(hash);
    CounterNamed(format);
    CounterWritable();
    CounterShape();
    hide *;
    OnePageAccepted(CounterSource(), format, hash, hash(BUTTON));
  }

  lemma {:induction false} OnePageAccepted(s: Source, format: u16, hash: Bytes -> u32, id: u32)
    requires PolicyOk(s, format) && BindingRule(s) && BudgetOk(s.budget) && format <= s.minimumRuntime
    requires SourceIdsAll(hash, Roots(s.pages)) == [id] && |s.states| <= 4096 && |s.handlers| <= 4096
    requires var t := TablesOf(s, format);
      && s.entryPage in t.pages && s.entryHandler.None?
      && Compiler.HandlersAcceptable(t, TypesOf(Initials(s)), s.handlers)
      && |s.pages| == 1 && NodeSourceOk(t, s.pages[0].root)
    ensures Acceptable(s, format, hash)
  {
    hide PolicyOk, BindingRule, SourceIdsAll, Roots, TablesOf, Compiler.HandlersAcceptable, TypesOf, Initials, NodeSourceOk;
  }

  lemma {:induction false} CounterShape()
    ensures var s := CounterSource();
      && |s.states| == 1 && s.handlers == [HandlerSpec(INCREMENT, Body())] && s.pages == [PageSpec(MAIN, Button())]
      && s.budget == Budget(1000, 32, 4096, 100, 8) && s.minimumRuntime == 5
      && s.entryPage == MAIN && s.entryHandler == None
  {
  }

  lemma {:induction false} CounterCode(format: u16)
    ensures CodeMeans(TablesOf(CounterSource(), format), [], Closed(Body()), Increment())
  {
    var t := TablesOf(CounterSource(), format);
    CounterTables(format);
    hide TablesOf, Ascii;
    var body := Closed(Body());
    assert body == Body() + [Stop];
    forall k | 0 <= k < |body| ensures InstructionMeans(t, [], body[k], Increment()[k]) {
    }
  }

  lemma {:induction false} CounterPage(format: u16, hash: Bytes -> u32)
    ensures NodeMeans(TablesOf(CounterSource(), format), [], hash, Button(), Page(hash(BUTTON)))
  {
    var t := TablesOf(CounterSource(), format);
    CounterTables(format);
    TextPieces();
    hide TablesOf, Ascii, Pieces;
    assert TemplateMeans(t.states, [], TEXT, [StateText(0)]) by {
      assert Stands(t.states, [], Hole(COUNT), StateText(0));
    }
  }

  // What it compiles to.
  lemma {:induction false} CounterCompiled(format: u16, hash: Bytes -> u32)
    requires 1 <= format <= 5
    ensures CompiledFrom(CounterSource(), format, hash, CounterModule(format, hash(BUTTON)))
  {
    var s, m := CounterSource(), CounterModule(format, hash(BUTTON));
    CounterPolicy(format);
    CounterTables(format);
    CounterNamed(format);
    CounterCode(format);
    CounterPage(format, hash);
    CounterWritable();
    CounterShape();
    CounterParts(format, hash(BUTTON));
    hide *;
    CounterMeans(s, format, hash, m);
    WrittenIff(s, format, hash, m);
    Together(s, format, hash, m);
  }

  lemma {:induction false} Together(s: Source, format: u16, hash: Bytes -> u32, m: Module)
    requires Translated(s, format, hash, m) && Written(m)
    ensures CompiledFrom(s, format, hash, m)
  {
    hide Translated, Written;
  }

  lemma {:induction false} CounterParts(format: u16, id: u32)
    ensures var m := CounterModule(format, id);
      && m == ModuleOf(CounterSource(), format, m.handlers, m.pages, m.entryPage, m.entryHandler)
      && m.constants == [] && m.initialState == Initials(CounterSource()) == [IntValue(0)] && m.format == format
      && m.handlers == [Increment()] && m.pages == [Page(id)] && m.entryPage == 0 && m.entryHandler == None
      && m.limits == Limits(1000, 32, 4096, 100, if format >= 2 then 8 else 64)
      && IdsAll(m.pages) == [id]
  {
    CounterPool();
    CounterTables(format);
    hide Pool, StringsOf, TablesOf, VersionsOf, IdentitiesOf, Initials, Ascii;
    assert [Page(id)][1..] == [] && Ids(Page(id)) == [id] + IdsAll([]);
  }

  lemma {:induction false} CounterMeans(s: Source, format: u16, hash: Bytes -> u32, m: Module)
    requires Dictionaries(s) && PolicyOk(s, format) && BindingRule(s) && BudgetOk(s.budget)
    requires m == ModuleOf(s, format, m.handlers, m.pages, m.entryPage, m.entryHandler)
    requires var t := TablesOf(s, format);
      && Compiler.HandlersAcceptable(t, TypesOf(m.initialState), s.handlers)
      && |s.handlers| == |m.handlers| == 1 && CodeMeans(t, m.constants, Closed(s.handlers[0].body), m.handlers[0])
      && |s.pages| == |m.pages| == 1 && NodeMeans(t, m.constants, hash, s.pages[0].root, m.pages[0])
      && Named(t.pages, m.entryPage, s.entryPage)
    requires |IdsAll(m.pages)| == 1 <= m.limits.maxUiNodes && |s.states| <= 4096 && format <= s.minimumRuntime
    requires s.entryHandler.None? && m.entryHandler.None?
    ensures Translated(s, format, hash, m)
  {
    hide Dictionaries, PolicyOk, BindingRule, BudgetOk, ModuleOf, TablesOf, Compiler.HandlersAcceptable, TypesOf,
      CodeMeans, Closed, NodeMeans, IdsAll;
  }

  // The runtime takes what the compiler wrote, under any node hash but zero.
  lemma {:induction false} CounterLoads(format: u16, hash: Bytes -> u32)
    requires 1 <= format <= 5 && hash(BUTTON) != 0
    ensures var m := CounterModule(format, hash(BUTTON));
      Loaded(m) && Parse(Encode(m)) == Some(m)
  {
    hide *;
    var s, m := CounterSource(), CounterModule(format, hash(BUTTON));
    CounterCompiled(format, hash);
    CounterLimits(format, hash);
    CompiledParses(s, format, hash, m);
    PrintOfParse(Encode(m));
    ValidIsLoaded(m);
  }

  lemma {:induction false} CounterLimits(format: u16, hash: Bytes -> u32)
    requires hash(BUTTON) != 0
    ensures HardLimits(CounterSource(), format, hash)
  {
    CounterTables(format);
    CounterTyped(format, Some(32));
    TextPieces();
    hide Pieces, WellTyped, TablesOf, Ascii, TypesOf, Initials;
    assert SourceWithin(hash, Button());
    assert StateSize([IntValue(0)]) == 8;
  }

  // -------- it counts --------

  // What the rest needs to know of the compiled module.
  predicate IsCounter(m: Module, id: u32) {
    && m.handlers == [Increment()] && m.pages == [Page(id)] && m.initialState == [IntValue(0)]
    && m.entryPage == 0 && m.entryHandler == None
    && m.limits.maxInstructions == 1000 && m.limits.maxStack == 32 && m.limits.maxStateBytes == 4096
  }

  // A host that takes every tree.
  ghost predicate Willing(host: Host) {
    forall calls: seq<HostCall> :: !host(calls).Throws?
  }

  // The button that shows j.
  function Shows(id: u32, j: nat, t: Snap): bool {
    t.kind == 8 && t.id == id && t.properties == [Property(1, Decimal(j))] && t.children == []
    && t.events == [EventBinding(TAP, 0)]
  }

  // The counter stands at j: the last tree shows it in revision j + 1, and one tree was
  // delivered for each number so far.
  predicate At(id: u32, j: nat, vm: Vm) {
    && vm.started && vm.page == 0 && j <= MAX_I64 && vm.state == [IntValue(j)]
    && vm.last.Some? && Shows(id, j, vm.last.value) && vm.last.value.revision == j + 1
    && |vm.log.delivered| == j + 1 && vm.log.delivered[j] == vm.last.value
  }

  lemma {:induction false} Evaluated(m: Module, id: u32, j: nat)
    requires j <= MAX_I64
    ensures Renderable(m, [IntValue(j)], Page(id)) && Shows(id, j, Snapshot(m, [IntValue(j)], Page(id)))
  {
    var state := [IntValue(j)];
    hide Decimal;
    assert InRange(m, state, StateText(0));
    assert [StateText(0)][1..] == [] && Evaluate(m, state, []) == [];
    assert Evaluate(m, state, [StateText(0)]) == Decimal(j) + Evaluate(m, state, []) == Decimal(j);
    assert Snapshot(m, state, Page(id)).properties == [Property(1, Decimal(j))];
  }

  // The next number is a change of the button, so it gets the next revision.
  lemma {:induction false} NextRevision(id: u32, j: nat, last: Snap, n: Snap)
    requires j < MAX_I64 && Shows(id, j, last) && Shows(id, j + 1, n) && last.revision == j + 1
    ensures Revise(Some(last), n).revision == j + 2 && Shows(id, j + 1, Revise(Some(last), n))
    ensures !Exhausts(PreviousIndex(Some(last)), n) && !Skips(Some(last), Revise(Some(last), n))
  {
    if Decimal(j) == Decimal(j + 1) {
      TextDecidesValue(IntValue(j), IntValue(j + 1));
    }
    hide Decimal;
    assert IndexSnapshot(last, map[]) == map[id := last];
    assert last.properties[0] != n.properties[0];
  }

  lemma {:induction false} FirstRevision(id: u32, n: Snap)
    requires Shows(id, 0, n)
    ensures Revise(None, n).revision == 1 && Shows(id, 0, Revise(None, n))
    ensures !Exhausts(PreviousIndex(None), n) && !Skips(None, Revise(None, n))
  {
  }

  // A tree that is new to a willing host is delivered.
  lemma {:induction false} Taken(m: Module, vm: Vm, host: Host)
    requires Willing(host) && |m.pages| == 1 && Renderable(m, vm.state, m.pages[0])
    requires var n := Snapshot(m, vm.state, m.pages[0]);
      !Exhausts(PreviousIndex(vm.last), n) && !Skips(vm.last, Revise(vm.last, n))
    ensures var (vm', e) := RenderPage(m, vm, 0, host);
      var t := Revise(vm.last, Snapshot(m, vm.state, m.pages[0]));
      && e.None? && vm'.page == 0 && vm'.last == Some(t) && vm'.log.delivered == vm.log.delivered + [t]
      && vm'.started == vm.started && vm'.state == vm.state
  {
    hide Snapshot, Renderable, Revise, Exhausts, PreviousIndex, Skips;
  }

  // Rendering the next number.
  lemma {:induction false} Rendered(m: Module, id: u32, j: nat, vm: Vm, host: Host)
    requires m.pages == [Page(id)] && Willing(host)
    requires vm.started && j <= MAX_I64 && vm.state == [IntValue(j)] && |vm.log.delivered| == j
    requires if j == 0 then vm.last == None
             else vm.last.Some? && Shows(id, j - 1, vm.last.value) && vm.last.value.revision == j
    ensures var r := RenderPage(m, vm, 0, host); r.1.None? && At(id, j, r.0)
  {
    Evaluated(m, id, j);
    hide *;
    var n := Snapshot(m, vm.state, Page(id));
    if j == 0 {
      FirstRevision(id, n);
    } else {
      NextRevision(id, j - 1, vm.last.value, n);
    }
    Taken(m, vm, host);
    Arrived(id, j, RenderPage(m, vm, 0, host).0);
  }

  lemma {:induction false} Arrived(id: u32, j: nat, vm: Vm)
    requires vm.started && vm.page == 0 && j <= MAX_I64 && vm.state == [IntValue(j)]
    requires vm.last.Some? && Shows(id, j, vm.last.value) && vm.last.value.revision == j + 1
    requires |vm.log.delivered| == j + 1 && vm.log.delivered[j] == vm.last.value
    ensures At(id, j, vm)
  {
    hide Shows;
  }

  // -------- one tap --------

  // Between the rounds of a tap only accounts change, and after the assignment the state.
  predicate During(id: u32, j: nat, vm: Vm, k: nat) {
    && vm.started && vm.page == 0 && k <= MAX_I64 && vm.state == [IntValue(k)]
    && vm.last.Some? && Shows(id, j, vm.last.value) && vm.last.value.revision == j + 1
    && |vm.log.delivered| == j + 1
  }

  lemma {:induction false} Steps(m: Module, id: u32, j: nat, vm: Vm, f: Frame, host: Host)
    requires IsCounter(m, id) && f.handler == 0 && f.pc < 4 && f.executed == f.pc
    requires j < MAX_I64 && During(id, j, vm, j)
    requires f.stack == (match f.pc
                         case 0 => []
                         case 1 => [IntValue(j)]
                         case 2 => [IntValue(j), IntValue(1)]
                         case _ => [IntValue(j + 1)])
    ensures var (vm', o) := Step(m, vm, f, host);
      && o.Running? && o.frame.handler == 0 && o.frame.pc == f.pc + 1 == o.frame.executed
      && o.frame.stack == (match f.pc
                           case 0 => [IntValue(j)]
                           case 1 => [IntValue(j), IntValue(1)]
                           case 2 => [IntValue(j + 1)]
                           case _ => [])
      && During(id, j, vm', if f.pc == 3 then j + 1 else j)
  {
    hide Shows;
    assert StateSize([IntValue(j)]) == 8;
  }

  lemma {:induction false} RunNext(m: Module, vm: Vm, f: Frame, host: Host)
    requires Step(m, vm, f, host).1.Running?
    ensures Run(m, vm, f, host) == Run(m, Step(m, vm, f, host).0, Step(m, vm, f, host).1.frame, host)
  {
    hide Step;
  }

  // The render instruction and the final halt.
  lemma {:induction false} Finish(m: Module, id: u32, j: nat, vm: Vm, f: Frame, host: Host)
    requires IsCounter(m, id) && Willing(host) && f.handler == 0 && f.pc == f.executed == 4 && f.stack == []
    requires j < MAX_I64 && During(id, j, vm, j + 1)
    ensures var r := Run(m, vm, f, host); r.1.None? && At(id, j + 1, r.0)
  {
    var vm1 := Charged(vm, f.origin);
    assert During(id, j, vm1, j + 1);
    hide Shows;
    Rendered(m, id, j + 1, vm1, host);
    var (vm2, o) := Step(m, vm, f, host);
    assert vm2 == RenderPage(m, vm1, 0, host).0 && o.Running? && o.frame.pc == o.frame.executed == 5
      && o.frame.handler == 0 && o.frame.origin == f.origin by { hide RenderPage, At; }
    hide RenderPage;
    assert Step(m, vm2, o.frame, host) == (Charged(vm2, f.origin), Finished);
    assert At(id, j + 1, Charged(vm2, f.origin));
    hide Step;
  }

  lemma {:induction false} Tapped(m: Module, id: u32, j: nat, vm: Vm, host: Host)
    requires IsCounter(m, id) && Willing(host) && j < MAX_I64 && At(id, j, vm)
    ensures var r := Handle(m, vm, Dispatch(id, TAP, None), host); r.1.None? && At(id, j + 1, r.0)
  {
    var vm0 := vm.(log := vm.log.(entries := vm.log.entries + 1));
    var f0 := Frame(0, 0, 0, [], None, vm.log.entries);
    assert FindEvent(Page(id), id, TAP) == Some(0);
    assert During(id, j, vm0, j);
    assert Handle(m, vm, Dispatch(id, TAP, None), host) == Run(m, vm0, f0, host) by { hide Run, At; }
    hide *;
    Ran(m, id, j, vm0, f0, host);
  }

  lemma {:induction false} Ran(m: Module, id: u32, j: nat, vm: Vm, f: Frame, host: Host)
    requires IsCounter(m, id) && Willing(host) && j < MAX_I64 && During(id, j, vm, j)
    requires f.handler == 0 && f.pc == f.executed == 0 && f.stack == []
    ensures var r := Run(m, vm, f, host); r.1.None? && At(id, j + 1, r.0)
  {
    hide *;
    Steps(m, id, j, vm, f, host);
    RunNext(m, vm, f, host);
    var (vm1, o1) := Step(m, vm, f, host);
    Steps(m, id, j, vm1, o1.frame, host);
    RunNext(m, vm1, o1.frame, host);
    var (vm2, o2) := Step(m, vm1, o1.frame, host);
    Steps(m, id, j, vm2, o2.frame, host);
    RunNext(m, vm2, o2.frame, host);
    var (vm3, o3) := Step(m, vm2, o2.frame, host);
    Steps(m, id, j, vm3, o3.frame, host);
    RunNext(m, vm3, o3.frame, host);
    var (vm4, o4) := Step(m, vm3, o3.frame, host);
    Finish(m, id, j, vm4, o4.frame, host);
  }

  function Taps(id: u32, k: nat): seq<Event> {
    seq(k, _ => Dispatch(id, TAP, None))
  }

  lemma {:induction false} TapsCount(m: Module, id: u32, j: nat, vm: Vm, k: nat, host: Host)
    requires IsCounter(m, id) && Willing(host) && j + k <= MAX_I64 && At(id, j, vm)
    ensures At(id, j + k, RunAll(m, vm, Taps(id, k), host))
    decreases k
  {
    hide Handle, At, IsCounter, Willing;
    if k == 0 {
      assert Taps(id, k) == [];
    } else {
      Tapped(m, id, j, vm, host);
      assert Taps(id, k)[1..] == Taps(id, k - 1);
      TapsCount(m, id, j + 1, Handle(m, vm, Dispatch(id, TAP, None), host).0, k - 1, host);
    }
  }

  lemma {:induction false} Started(m: Module, id: u32, host: Host)
    requires IsCounter(m, id) && Willing(host)
    ensures At(id, 0, Handle(m, InitialVm(m), Start, host).0)
  {
    var vm := InitialVm(m).(started := true);
    Rendered(m, id, 0, vm, host);
    hide RenderPage, At;
  }

  lemma {:induction false} IsCounterModule(format: u16, id: u32)
    ensures IsCounter(CounterModule(format, id), id)
  {
    CounterParts(format, id);
    hide CounterModule;
  }

  // After a start and k taps the counter stands at k: that is its state, the text of its
  // button in both hosts, and the number of updates that followed the first tree.
  lemma {:induction false} CounterCounts(format: u16, hash: Bytes -> u32, k: nat, host: Host)
    requires 1 <= format <= 5 && hash(BUTTON) != 0 && Willing(host) && k <= MAX_I64
    ensures var vm := After(CounterModule(format, hash(BUTTON)), [Start] + Taps(hash(BUTTON), k), host);
      && At(hash(BUTTON), k, vm)
      && Watch(WIRE_V1, vm.log.delivered).0.root == Some(Wire(vm.last.value))
      && Watch(WIRE_V2, vm.log.delivered).0.root == Some(Wire(vm.last.value))
  {
    hide CounterModule, Handle, IsCounter, Willing, InitialVm, Taps, Watch, Shows, BUTTON, Loaded;
    var id, m := hash(BUTTON), CounterModule(format, hash(BUTTON));
    IsCounterModule(format, id);
    Started(m, id, host);
    TapsCount(m, id, 0, Handle(m, InitialVm(m), Start, host).0, k, host);
    assert ([Start] + Taps(id, k))[1..] == Taps(id, k) && ([Start] + Taps(id, k))[0] == Start;
    CounterLoads(format, hash);
    HostsAgree(m, [Start] + Taps(id, k), host);
  }
}

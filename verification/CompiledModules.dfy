/** What the runtime makes of compiled payloads: which of them it accepts, and what it
    can rely on while it runs them. */
module CompiledModules {
  import opened Basics
  import opened Bytecode
  import opened HandlerVerifier
  import opened UiTree
  import opened Interpreter
  import opened RunLedger
  import opened RunSafety
  import opened Payload
  import opened PayloadRoundTrip
  import opened Writers
  import opened Templates
  import opened Dsl
  import opened SourceTypes
  import opened Builds
  import Compiler

  // -------- the limits only the runtime enforces --------

  // A tree without a zero ID or an overlong template.
  ghost predicate SourceWithin(hash: Bytes -> u32, n: SourceNode)
    decreases n
  {
    && hash(n.id) != 0
    && (forall k :: 0 <= k < |n.properties| ==> |Pieces(n.properties[k].template)| <= 1024)
    && forall k :: 0 <= k < |n.children| ==> SourceWithin(hash, n.children[k])
  }

  function SourceDepth(n: SourceNode): nat
    decreases n, 1
  {
    1 + SourceDepthAll(n.children)
  }

  function SourceDepthAll(ns: seq<SourceNode>): nat
    decreases ns, 0
  {
    if ns == [] then 0
    else
      var first, rest := SourceDepth(ns[0]), SourceDepthAll(ns[1..]);
      if first < rest then rest else first
  }

  // A handler of at most a million instructions whose stacks keep the budget.
  ghost predicate BodyWithin(s: Source, t: Tables, body: seq<SourceInstruction>) {
    |Closed(body)| <= MAX_HANDLER && WellTyped(t, TypesOf(Initials(s)), Some(Capped(s.budget.stack)), Closed(body))
  }

  ghost predicate HardLimits(s: Source, format: u16, hash: Bytes -> u32) {
    && |s.capabilities| <= 4096 && |s.domains| <= 4096 && |s.scopes| <= 4096
    && s.schema > 0
    && StateSize(Initials(s)) <= s.budget.stateBytes
    && (forall h :: 0 <= h < |s.handlers| ==> BodyWithin(s, TablesOf(s, format), s.handlers[h].body))
    && forall k :: 0 <= k < |s.pages| ==>
         SourceWithin(hash, s.pages[k].root) && SourceDepth(s.pages[k].root) <= MAX_UI_DEPTH
  }

  // -------- nodes --------

  lemma {:induction false} PropertiesOk(t: Tables, m: Module, ss: seq<SourceProperty>, ps: seq<PropertyExpression>)
    requires PropertiesMean(t, m.constants, ss, ps) && |m.initialState| == |t.states|
    ensures Distinct(KeysOf(ss)) ==> Distinct(Keys(ps))
    ensures forall k :: 0 <= k < |ps| ==> (PropertyOk(m, ps[k]) <==> |Pieces(ss[k].template)| <= 1024)
  {
    hide Pieces;
    assert KeysOf(ss) == Keys(ps) by {
      assert forall k :: 0 <= k < |ss| ==> KeysOf(ss)[k] == Keys(ps)[k];
    }
    forall k | 0 <= k < |ps| ensures PropertyOk(m, ps[k]) <==> |Pieces(ss[k].template)| <= 1024 {
      TemplateSays(t.states, m.constants, ss[k].template, ps[k].segments, Braced);
      forall j | 0 <= j < |ps[k].segments| ensures SegmentOk(m, ps[k].segments[j]) {
        assert Indexed(t.states, m.constants, ps[k].segments[j]);
      }
    }
  }

  lemma {:induction false} EventsOk(t: Tables, m: Module, ss: seq<SourceEvent>, es: seq<EventBinding>)
    requires EventsMean(t, ss, es) && |m.handlers| == |t.handlers|
    ensures Distinct(KindsOf(ss)) ==> Distinct(EventsOf(es))
    ensures forall k :: 0 <= k < |es| ==> es[k].handler < |m.handlers|
  {
    assert forall k :: 0 <= k < |ss| ==> Named(t.handlers, es[k].handler, ss[k].handler);
    assert KindsOf(ss) == EventsOf(es) by {
      assert forall k :: 0 <= k < |ss| ==> KindsOf(ss)[k] == EventsOf(es)[k];
    }
  }

  lemma {:induction false} CompiledNodeOk(t: Tables, m: Module, hash: Bytes -> u32, s: SourceNode, n: UiNode)
    requires NodeMeans(t, m.constants, hash, s, n) && NodeKeys(s) && Countable(n)
    requires |m.initialState| == |t.states| && |m.handlers| == |t.handlers|
    ensures NodeOk(m, n) <==> SourceWithin(hash, s)
    decreases s
  {
    hide Pieces;
    PropertiesOk(t, m, s.properties, n.properties);
    EventsOk(t, m, s.events, n.events);
    forall k | 0 <= k < |n.children| ensures NodeOk(m, n.children[k]) <==> SourceWithin(hash, s.children[k]) {
      CompiledNodeOk(t, m, hash, s.children[k], n.children[k]);
    }
    hide PropertiesMean, EventsMean, PropertyOk, Distinct;
  }

  lemma {:induction false} CompiledDepth(t: Tables, pool: seq<Bytes>, hash: Bytes -> u32, s: SourceNode, n: UiNode)
    requires NodeMeans(t, pool, hash, s, n)
    ensures Depth(n) == SourceDepth(s)
    decreases s, 1
  {
    CompiledDepthAll(t, pool, hash, s.children, n.children);
  }

  lemma {:induction false} CompiledDepthAll(t: Tables, pool: seq<Bytes>, hash: Bytes -> u32, ss: seq<SourceNode>,
      ns: seq<UiNode>)
    requires |ns| == |ss| && forall k :: 0 <= k < |ss| ==> NodeMeans(t, pool, hash, ss[k], ns[k])
    ensures DepthAll(ns) == SourceDepthAll(ss)
    decreases ss, 0
  {
    hide NodeMeans;
    if ss == [] {
    } else {
      CompiledDepth(t, pool, hash, ss[0], ns[0]);
      CompiledDepthAll(t, pool, hash, ss[1..], ns[1..]);
    }
  }

  // -------- handlers --------

  lemma {:induction false} CompiledCode(t: Tables, m: Module, body: seq<SourceInstruction>, code: Code)
    requires CodeMeans(t, m.constants, Closed(body), code) && Distinct(t.states)
    requires m.format == t.format && m.capabilities == t.capabilities && |m.initialState| == |t.states|
    requires |m.pages| == |t.pages|
    ensures Operands(m, code) && |code| == |Closed(body)| > 0
    ensures Typable(m, RuntimePolicy, code)
       <==> WellTyped(t, TypesOf(m.initialState), Some(m.limits.maxStack), Closed(body))
    ensures ReadsEventValue(code) <==> UsesInput(body)
  {
    Compiler.CodeOperands(t, m, Closed(body), code);
    InputRead(t, m.constants, body, code);
    TypingAgrees(t, m, RuntimePolicy, Closed(body), code);
    hide Typable, WellTyped, InstructionMeans, Operands;
  }

  lemma {:induction false} InputRead(t: Tables, pool: seq<Bytes>, body: seq<SourceInstruction>, code: Code)
    requires CodeMeans(t, pool, Closed(body), code)
    ensures ReadsEventValue(code) <==> UsesInput(body)
  {
    if UsesInput(body) {
      var k :| 0 <= k < |body| && body[k] == Input;
      assert Closed(body)[k] == Input && code[k] == EventValue;
    }
    if ReadsEventValue(code) {
      var k :| 0 <= k < |code| && code[k].EventValue?;
      assert InstructionMeans(t, pool, Closed(body)[k], code[k]);
      assert Closed(body)[k] == Input && body[k] == Input;
    }
  }

  // -------- whole modules --------

  lemma {:induction false} CompiledCodes(s: Source, format: u16, hash: Bytes -> u32, m: Module)
    requires CompiledFrom(s, format, hash, m)
    ensures |m.handlers| == |s.handlers|
    ensures forall h :: 0 <= h < |m.handlers| ==> Operands(m, m.handlers[h]) && |m.handlers[h]| > 0
    ensures forall h :: 0 <= h < |m.handlers| ==>
      (|m.handlers[h]| <= MAX_HANDLER && Typable(m, RuntimePolicy, m.handlers[h])
       <==> BodyWithin(s, TablesOf(s, format), s.handlers[h].body))
    ensures forall h :: 0 <= h < |m.handlers| ==> (ReadsEventValue(m.handlers[h]) <==> UsesInput(s.handlers[h].body))
  {
    var t := TablesOf(s, format);
    StateNames(s, format);
    hide Typable, ReadsEventValue, UsesInput, Operands, Compiler.HandlersAcceptable, CodeMeans, Dictionaries, PolicyOk,
      BuildOk, BindingRule, Written, Distinct, Closed, WellTyped, Pool;
    forall h | 0 <= h < |m.handlers|
      ensures Operands(m, m.handlers[h]) && |m.handlers[h]| > 0
      ensures |m.handlers[h]| <= MAX_HANDLER && Typable(m, RuntimePolicy, m.handlers[h])
         <==> BodyWithin(s, t, s.handlers[h].body)
      ensures ReadsEventValue(m.handlers[h]) <==> UsesInput(s.handlers[h].body)
    {
      CompiledCode(t, m, s.handlers[h].body, m.handlers[h]);
    }
  }

  lemma {:induction false} CompiledPages(s: Source, format: u16, hash: Bytes -> u32, m: Module)
    requires CompiledFrom(s, format, hash, m)
    ensures |m.handlers| == |s.handlers| && |m.pages| == |s.pages|
    ensures PagesOk(m) <==> forall k :: 0 <= k < |s.pages| ==>
      SourceWithin(hash, s.pages[k].root) && SourceDepth(s.pages[k].root) <= MAX_UI_DEPTH
  {
    var t := TablesOf(s, format);
    hide NodeOk, SourceWithin, SourceDepth, Depth, NodeMeans, NodeKeys, Countable, Distinct, BindingRule, PolicyOk,
      CodeMeans, Compiler.HandlersAcceptable, Compiler.InPool, Pool;
    forall k | 0 <= k < |m.pages|
      ensures NodeOk(m, m.pages[k]) <==> SourceWithin(hash, s.pages[k].root)
      ensures Depth(m.pages[k]) == SourceDepth(s.pages[k].root)
    {
      CompiledNodeOk(t, m, hash, s.pages[k].root, m.pages[k]);
      CompiledDepth(t, m.constants, hash, s.pages[k].root, m.pages[k]);
    }
  }

  lemma {:induction false} CompiledTables(s: Source, format: u16, hash: Bytes -> u32, m: Module)
    requires CompiledFrom(s, format, hash, m)
    ensures TablesOk(m) <==> |s.capabilities| <= 4096 && |s.domains| <= 4096 && |s.scopes| <= 4096
    ensures StatesOk(m) <==> StateSize(Initials(s)) <= s.budget.stateBytes
    ensures HeadOk(HeadOf(m)) <==> s.schema > 0
    ensures HeadTextsOk(m) && LimitsOk(m.limits) && (m.format < 2 ==> m.limits.maxTasks == 64) && EntryOk(m)
  {
    PoolFacts(s);
    hide BindingRule, Dictionaries, PagesMean, Compiler.HandlersMean, Compiler.HandlersAcceptable, AllShort, IdsAll, StateSize, Pool;
    CompiledSizes(s, format, hash, m);
    assert m.format >= 3 ==> m.capabilityVersions == VersionsOf(s);
    assert m.format >= 4 ==> m.stateIds == IdentitiesOf(s);
  }

  lemma {:induction false} CompiledSizes(s: Source, format: u16, hash: Bytes -> u32, m: Module)
    requires CompiledFrom(s, format, hash, m)
    ensures |m.handlers| == |s.handlers| <= MAX_U16 && |m.pages| == |s.pages|
  {
  }

  // A compiled module is one the format can carry exactly when its description keeps the
  // limits that only the runtime enforces.
  lemma {:induction false} CompiledValid(s: Source, format: u16, hash: Bytes -> u32, m: Module)
    requires CompiledFrom(s, format, hash, m)
    ensures Valid(m) <==> HardLimits(s, format, hash)
  {
    hide CompiledFrom, TablesOk, StatesOk, PagesOk, EntryOk, HeadOk, HeadTextsOk, LimitsOk, BodyWithin, Typable,
      SourceWithin, SourceDepth, StateSize;
    CompiledCodes(s, format, hash, m);
    CompiledPages(s, format, hash, m);
    CompiledTables(s, format, hash, m);
    CompiledSizes(s, format, hash, m);
    assert CodeOk(m) <==> forall h :: 0 <= h < |s.handlers| ==> BodyWithin(s, TablesOf(s, format), s.handlers[h].body);
  }

  // The runtime parses what the compiler wrote back into the compiled module, exactly
  // when the description keeps the runtime's hard limits.
  lemma {:induction false} CompiledParses(s: Source, format: u16, hash: Bytes -> u32, m: Module)
    requires CompiledFrom(s, format, hash, m)
    ensures Parse(Encode(m)) == Some(m) <==> HardLimits(s, format, hash)
  {
    hide *;
    CompiledValid(s, format, hash, m);
    if Valid(m) {
      ParseOfPrint(m);
    }
    if Parse(Encode(m)) == Some(m) {
      PrintOfParse(Encode(m));
    }
  }

  // -------- the event value --------

  lemma {:induction false} EventListed(es: seq<SourceEvent>, k: nat)
    requires k < |es|
    ensures es[k].event in EventsFor(es, es[k].handler)
  {
    if k == 0 {
    } else {
      EventListed(es[1..], k - 1);
    }
  }

  lemma {:induction false} ChildBound(ns: seq<SourceNode>, k: nat, h: Bytes, e: EventType)
    requires k < |ns| && e in BoundEvents(ns[k], h)
    ensures e in BoundEventsAll(ns, h)
  {
    hide BoundEvents;
    if k == 0 {
    } else {
      ChildBound(ns[1..], k - 1, h, e);
    }
  }

  lemma {:induction false} ValueEventIn(es: seq<EventType>, e: EventType)
    requires ValueEvents(es) && e in es
    ensures e == CHANGE || e == SUBMIT
  {
  }

  // In a tree whose readers are bound to value events only, every binding is safe.
  lemma {:induction false} CompiledNodeSafe(t: Tables, m: Module, hash: Bytes -> u32, readers: set<Bytes>,
      s: SourceNode, n: UiNode)
    requires NodeMeans(t, m.constants, hash, s, n) && |m.handlers| == |t.handlers|
    requires forall h :: 0 <= h < |m.handlers| ==> (ReadsEventValue(m.handlers[h]) ==> t.handlers[h] in readers)
    requires forall r, e :: r in readers && e in BoundEvents(s, r) ==> e == CHANGE || e == SUBMIT
    ensures NodeSafe(m, n)
    decreases s
  {
    forall k | 0 <= k < |n.events| ensures BindingSafe(m, n.events[k]) {
      assert Named(t.handlers, n.events[k].handler, s.events[k].handler);
      EventListed(s.events, k);
      assert s.events[k].event in BoundEvents(s, s.events[k].handler);
    }
    forall k | 0 <= k < |n.children| ensures NodeSafe(m, n.children[k]) {
      forall r, e | r in readers && e in BoundEvents(s.children[k], r) ensures e == CHANGE || e == SUBMIT {
        ChildBound(s.children, k, r, e);
        assert e in BoundEvents(s, r);
      }
      CompiledNodeSafe(t, m, hash, readers, s.children[k], n.children[k]);
    }
  }

  lemma {:induction false} ReaderNamed(hs: seq<HandlerSpec>, h: nat)
    requires h < |hs| && UsesInput(hs[h].body)
    ensures hs[h].name in ReaderNames(hs)
  {
    assert hs[h] in hs;
  }

  lemma {:induction false} CompiledSafe(s: Source, format: u16, hash: Bytes -> u32, m: Module)
    requires CompiledFrom(s, format, hash, m)
    ensures BindingsSafe(m)
  {
    CompiledCodes(s, format, hash, m);
    var t, readers := TablesOf(s, format), ReaderNames(s.handlers);
    forall h | 0 <= h < |m.handlers| && ReadsEventValue(m.handlers[h]) ensures t.handlers[h] in readers {
      ReaderNamed(s.handlers, h);
    }
    hide ReaderNames, UsesInput, ReadsEventValue, NodeMeans, NodeSafe, BoundEvents, BoundEventsAll, ValueEvents,
      Dictionaries, PolicyOk, Written, Compiler.HandlersMean, Compiler.HandlersAcceptable, Compiler.InPool, Distinct, Countable;
    forall p | 0 <= p < |m.pages| ensures NodeSafe(m, m.pages[p]) {
      forall r, e | r in readers && e in BoundEvents(s.pages[p].root, r) ensures e == CHANGE || e == SUBMIT {
        ChildBound(Roots(s.pages), p, r, e);
        ValueEventIn(BoundEventsAll(Roots(s.pages), r), e);
      }
      CompiledNodeSafe(t, m, hash, readers, s.pages[p].root, m.pages[p]);
    }
  }

  // No run of a compiled module, resumed handlers included, misses the event's value
  // while the host gives one with every change and submit.
  lemma {:induction false} CompiledNeverMissesValue(s: Source, format: u16, hash: Bytes -> u32, m: Module,
                                                    es: seq<Event>, e: Event, host: Host)
    requires CompiledFrom(s, format, hash, m) && Parse(Encode(m)) == Some(m)
    requires forall k :: 0 <= k < |es + [e]| ==>
      (es + [e])[k].Dispatch? && ((es + [e])[k].event == CHANGE || (es + [e])[k].event == SUBMIT) ==>
        (es + [e])[k].value.Some?
    ensures Handle(m, After(m, es, host), e, host).1 != Some(MissingEventValue)
  {
    hide *;
    CompiledSafe(s, format, hash, m);
    PrintOfParse(Encode(m));
    ValidIsLoaded(m);
    NoMissingEventValue(m, es, e, host);
  }

  // -------- templates --------

  // What a compiled property shows is its template with every state's text in place.
  lemma {:induction false} CompiledText(t: Tables, m: Module, hash: Bytes -> u32, state: seq<Value>, s: SourceNode,
      n: UiNode, k: nat)
    requires NodeMeans(t, m.constants, hash, s, n) && Distinct(t.states)
    requires |state| == |t.states| && Renderable(m, state, n) && k < |s.properties|
    ensures Snapshot(m, state, n).properties[k].key == s.properties[k].key
    ensures Snapshot(m, state, n).properties[k].value
         == Substitute(s.properties[k].template, name => ShownState(t.states, state, name))
  {
    RenderedTemplate(m, t.states, state, s.properties[k].template, n.properties[k].segments);
  }
}

/** The application description the compiler reads, and when compiled code and nodes
    mean what it says.  Dictionaries are listed in the order the compiler sorts them. */
module Dsl {
  import opened Basics
  import opened Bytecode
  import opened Templates

  datatype SourceInstruction =
    | Const(literal: Value)
    | GetState(name: Bytes)
    | SetState(name: Bytes)
    | Add
    | Compare
    | Goto(destination: nat)
    | GotoUnless(destination: nat)
    | Call(capability: Bytes, operation: Bytes, arguments: nat)
    | CallLater(capability: Bytes, operation: Bytes, arguments: nat)
    | Discard
    | Show(page: Bytes)
    | Stop
    | Input

  // The identity is the hash of the state's persistence ID.
  datatype StateSpec = StateSpec(name: Bytes, identity: u64, initial: Value)

  datatype HandlerSpec = HandlerSpec(name: Bytes, body: seq<SourceInstruction>)

  datatype SourceProperty = SourceProperty(key: PropertyKey, template: Bytes)

  datatype SourceEvent = SourceEvent(event: EventType, handler: Bytes)

  datatype SourceNode = SourceNode(
    kind: NodeType,
    id: Bytes,
    properties: seq<SourceProperty>,
    events: seq<SourceEvent>,
    children: seq<SourceNode>)

  datatype PageSpec = PageSpec(name: Bytes, root: SourceNode)

  datatype CapabilitySpec = CapabilitySpec(name: Bytes, version: u16)

  datatype Budget = Budget(instructions: int, stack: int, stateBytes: int, nodes: int, tasks: int)

  datatype Source = Source(
    minimumRuntime: u16,
    release: u64,
    profile: u8,
    platform: u8,
    moduleId: Bytes,
    applicationId: Bytes,
    tenant: Bytes,
    channel: Bytes,
    schema: u64,
    keyVersion: u32,
    budget: Budget,
    capabilities: seq<CapabilitySpec>,
    domains: seq<Bytes>,
    scopes: seq<Bytes>,
    states: seq<StateSpec>,
    handlers: seq<HandlerSpec>,
    pages: seq<PageSpec>,
    entryPage: Bytes,
    entryHandler: Option<Bytes>)

  // Names in the order their indices are assigned.
  datatype Tables = Tables(
    format: u16,
    states: seq<Bytes>,
    handlers: seq<Bytes>,
    pages: seq<Bytes>,
    capabilities: seq<Bytes>)

  function TablesOf(s: Source, format: u16): (t: Tables)
    ensures |t.states| == |s.states| && |t.handlers| == |s.handlers|
    ensures |t.pages| == |s.pages| && |t.capabilities| == |s.capabilities|
  {
    Tables(format,
           seq(|s.states|, i requires 0 <= i < |s.states| => s.states[i].name),
           seq(|s.handlers|, i requires 0 <= i < |s.handlers| => s.handlers[i].name),
           seq(|s.pages|, i requires 0 <= i < |s.pages| => s.pages[i].name),
           seq(|s.capabilities|, i requires 0 <= i < |s.capabilities| => s.capabilities[i].name))
  }

  function Initials(s: Source): (r: seq<Value>)
    ensures |r| == |s.states|
  {
    seq(|s.states|, i requires 0 <= i < |s.states| => s.states[i].initial)
  }

  function KeysOf(ps: seq<SourceProperty>): (ks: seq<PropertyKey>)
    ensures |ks| == |ps|
  {
    seq(|ps|, i requires 0 <= i < |ps| => ps[i].key)
  }

  function KindsOf(es: seq<SourceEvent>): (ks: seq<EventType>)
    ensures |ks| == |es|
  {
    seq(|es|, i requires 0 <= i < |es| => es[i].event)
  }

  // Dictionaries have no key twice.
  ghost predicate NodeKeys(n: SourceNode)
    decreases n
  {
    && Distinct(KeysOf(n.properties)) && Distinct(KindsOf(n.events))
    && forall i :: 0 <= i < |n.children| ==> NodeKeys(n.children[i])
  }

  ghost predicate Dictionaries(s: Source) {
    var t := TablesOf(s, 1);
    && Distinct(t.states) && Distinct(t.handlers) && Distinct(t.pages)
    && forall i :: 0 <= i < |s.pages| ==> NodeKeys(s.pages[i].root)
  }

  // -------- what compiled code means --------

  ghost predicate InstructionMeans(t: Tables, pool: seq<Bytes>, s: SourceInstruction, i: Instruction) {
    match s
    case Const(v) => i == Constant(v) && (v.StringValue? ==> v.s in pool)
    case GetState(n) => i.StateGet? && Named(t.states, i.slot, n)
    case SetState(n) => i.StateSet? && Named(t.states, i.slot, n)
    case Add => i == IntegerAdd
    case Compare => i == Equal
    case Goto(d) => i.Jump? && i.target == d
    case GotoUnless(d) => i.JumpIfFalse? && i.target == d
    case Call(c, o, n) =>
      i.Effect? && Named(t.capabilities, i.capability, c) && Named(pool, i.operation, o) && i.arity == n <= MAX_ARGUMENTS
    case CallLater(c, o, n) =>
      && i.AsyncEffect? && Named(t.capabilities, i.capability, c) && Named(pool, i.operation, o)
      && i.arity == n <= MAX_ARGUMENTS && t.format >= 2
    case Discard => i == Pop
    case Show(p) => i.Render? && Named(t.pages, i.page, p)
    case Stop => i == Halt
    case Input => i == EventValue && t.format >= 5
  }

  // A handler that does not end in a stop gets one.
  function Closed(body: seq<SourceInstruction>): (r: seq<SourceInstruction>)
    ensures |r| > 0 && r[|r| - 1] == Stop
    ensures body <= r && |r| <= |body| + 1
  {
    if body != [] && body[|body| - 1] == Stop then body else body + [Stop]
  }

  ghost predicate CodeMeans(t: Tables, pool: seq<Bytes>, body: seq<SourceInstruction>, code: Code) {
    |code| == |body| && forall k :: 0 <= k < |body| ==> InstructionMeans(t, pool, body[k], code[k])
  }

  predicate UsesInput(body: seq<SourceInstruction>) {
    exists k | 0 <= k < |body| :: body[k] == Input
  }

  ghost predicate PropertiesMean(t: Tables, pool: seq<Bytes>, ss: seq<SourceProperty>, ps: seq<PropertyExpression>) {
    && |ps| == |ss|
    && forall k :: 0 <= k < |ss| ==>
         ps[k].key == ss[k].key && TemplateMeans(t.states, pool, ss[k].template, ps[k].segments)
  }

  ghost predicate EventsMean(t: Tables, ss: seq<SourceEvent>, es: seq<EventBinding>) {
    && |es| == |ss|
    && forall k :: 0 <= k < |ss| ==> es[k].event == ss[k].event && Named(t.handlers, es[k].handler, ss[k].handler)
  }

  ghost predicate NodeMeans(t: Tables, pool: seq<Bytes>, hash: Bytes -> u32, s: SourceNode, n: UiNode)
    decreases s
  {
    && n.kind == s.kind && n.id == hash(s.id)
    && PropertiesMean(t, pool, s.properties, n.properties)
    && EventsMean(t, s.events, n.events)
    && |n.children| == |s.children|
    && forall k :: 0 <= k < |s.children| ==> NodeMeans(t, pool, hash, s.children[k], n.children[k])
  }

  // -------- what the compiler accepts --------

  // Indices are written in two bytes.
  predicate Indexable(t: Tables) {
    |t.states| <= MAX_U16 && |t.handlers| <= MAX_U16 && |t.pages| <= MAX_U16 && |t.capabilities| <= MAX_U16
  }

  predicate InstructionOk(t: Tables, s: SourceInstruction) {
    match s
    case GetState(n) => n in t.states
    case SetState(n) => n in t.states
    case Goto(d) => d <= MAX_U32
    case GotoUnless(d) => d <= MAX_U32
    case Call(c, o, n) => c in t.capabilities && o != [] && n <= MAX_ARGUMENTS
    case CallLater(c, o, n) => t.format >= 2 && c in t.capabilities && o != [] && n <= MAX_ARGUMENTS
    case Show(p) => p in t.pages
    case Input => t.format >= 5
    case _ => true
  }

  ghost predicate BodyOk(t: Tables, body: seq<SourceInstruction>) {
    forall k :: 0 <= k < |body| ==> InstructionOk(t, body[k])
  }

  ghost predicate NodeSourceOk(t: Tables, n: SourceNode)
    decreases n
  {
    && n.id != []
    && (forall k :: 0 <= k < |n.properties| ==> NamesKnown(t.states, n.properties[k].template))
    && (forall k :: 0 <= k < |n.events| ==> n.events[k].handler in t.handlers)
    && forall k :: 0 <= k < |n.children| ==> NodeSourceOk(t, n.children[k])
  }

  // The IDs the nodes of a tree get, in document order.
  function SourceIds(hash: Bytes -> u32, n: SourceNode): seq<u32>
    decreases n, 1
  {
    [hash(n.id)] + SourceIdsAll(hash, n.children)
  }

  function SourceIdsAll(hash: Bytes -> u32, ns: seq<SourceNode>): seq<u32>
    decreases ns, 0
  {
    if ns == [] then [] else SourceIds(hash, ns[0]) + SourceIdsAll(hash, ns[1..])
  }

  lemma {:induction false} CompiledIds(t: Tables, pool: seq<Bytes>, hash: Bytes -> u32, s: SourceNode, n: UiNode)
    requires NodeMeans(t, pool, hash, s, n)
    ensures Ids(n) == SourceIds(hash, s)
    decreases s, 1
  {
    CompiledIdsAll(t, pool, hash, s.children, n.children);
  }

  lemma {:induction false} CompiledIdsAll(t: Tables, pool: seq<Bytes>, hash: Bytes -> u32, ss: seq<SourceNode>,
      ns: seq<UiNode>)
    requires |ns| == |ss| && forall k :: 0 <= k < |ss| ==> NodeMeans(t, pool, hash, ss[k], ns[k])
    ensures IdsAll(ns) == SourceIdsAll(hash, ss)
    decreases ss, 0
  {
    hide NodeMeans;
    if ss == [] {
    } else {
      CompiledIds(t, pool, hash, ss[0], ns[0]);
      CompiledIdsAll(t, pool, hash, ss[1..], ns[1..]);
    }
  }

  // -------- the constant pool --------

  function Interned(pool: seq<Bytes>, x: Bytes): seq<Bytes> {
    if x in pool then pool else pool + [x]
  }

  // The pool after strings are interned in turn: the new ones in the order in which they
  // first occur.
  function InternAll(pool: seq<Bytes>, xs: seq<Bytes>): (r: seq<Bytes>)
    ensures pool <= r
    decreases xs
  {
    if xs == [] then pool else InternAll(Interned(pool, xs[0]), xs[1..])
  }

  lemma {:induction false} InternConcat(pool: seq<Bytes>, a: seq<Bytes>, b: seq<Bytes>)
    ensures InternAll(pool, a + b) == InternAll(InternAll(pool, a), b)
    decreases a
  {
    if a == [] {
      assert a + b == b;
    } else {
      assert (a + b)[1..] == a[1..] + b;
      InternConcat(Interned(pool, a[0]), a[1..], b);
    }
  }

  // The pool holds every string once, and no other string.
  lemma {:induction false} InternedOnce(pool: seq<Bytes>, xs: seq<Bytes>)
    requires Distinct(pool)
    ensures Distinct(InternAll(pool, xs))
    ensures forall x :: x in InternAll(pool, xs) <==> x in pool || x in xs
    decreases xs
  {
    if xs == [] {
    } else {
      DistinctConcat(pool, [xs[0]]);
      InternedOnce(Interned(pool, xs[0]), xs[1..]);
      assert forall x :: x in xs <==> x == xs[0] || x in xs[1..];
    }
  }

  function ValueStrings(v: Value): seq<Bytes> {
    if v.StringValue? then [v.s] else []
  }

  function InstructionStrings(s: SourceInstruction): seq<Bytes> {
    match s
    case Const(v) => ValueStrings(v)
    case Call(_, o, _) => [o]
    case CallLater(_, o, _) => [o]
    case _ => []
  }

  function StateStrings(ss: seq<StateSpec>): seq<Bytes> {
    if ss == [] then [] else ValueStrings(ss[0].initial) + StateStrings(ss[1..])
  }

  function BodyStrings(body: seq<SourceInstruction>): seq<Bytes> {
    if body == [] then [] else InstructionStrings(body[0]) + BodyStrings(body[1..])
  }

  function HandlerStrings(hs: seq<HandlerSpec>): seq<Bytes> {
    if hs == [] then [] else BodyStrings(hs[0].body) + HandlerStrings(hs[1..])
  }

  function PropertyStrings(ps: seq<SourceProperty>): seq<Bytes> {
    if ps == [] then [] else TextsOf(Pieces(ps[0].template)) + PropertyStrings(ps[1..])
  }

  function NodeStrings(n: SourceNode): seq<Bytes>
    decreases n, 1
  {
    PropertyStrings(n.properties) + NodeStringsAll(n.children)
  }

  function NodeStringsAll(ns: seq<SourceNode>): seq<Bytes>
    decreases ns, 0
  {
    if ns == [] then [] else NodeStrings(ns[0]) + NodeStringsAll(ns[1..])
  }

  // Every string of the description in the order the compiler meets it.
  function StringsOf(s: Source): seq<Bytes> {
    StateStrings(s.states) + HandlerStrings(s.handlers) + NodeStringsAll(Roots(s.pages))
  }

  function Pool(s: Source): seq<Bytes> {
    InternAll([], StringsOf(s))
  }

  // -------- interning more strings changes no meaning --------

  lemma {:induction false} CodeStays(t: Tables, pool: seq<Bytes>, larger: seq<Bytes>, body: seq<SourceInstruction>,
      code: Code)
    requires CodeMeans(t, pool, body, code) && pool <= larger
    ensures CodeMeans(t, larger, body, code)
  {
    forall k | 0 <= k < |body| ensures InstructionMeans(t, larger, body[k], code[k]) {
      assert InstructionMeans(t, pool, body[k], code[k]);
      PrefixKeeps(pool, larger);
    }
  }

  lemma {:induction false} PrefixKeeps(pool: seq<Bytes>, larger: seq<Bytes>)
    requires pool <= larger
    ensures forall s :: s in pool ==> s in larger
  {
    forall s | s in pool ensures s in larger {
      var i :| 0 <= i < |pool| && pool[i] == s;
      assert larger[i] == s;
    }
  }

  lemma {:induction false} NodeStays(t: Tables, pool: seq<Bytes>, larger: seq<Bytes>, hash: Bytes -> u32,
      s: SourceNode, n: UiNode)
    requires NodeMeans(t, pool, hash, s, n) && pool <= larger
    ensures NodeMeans(t, larger, hash, s, n)
    decreases s
  {
    PropertiesStay(t, pool, larger, s.properties, n.properties);
    forall k | 0 <= k < |s.children| ensures NodeMeans(t, larger, hash, s.children[k], n.children[k]) {
      NodeStays(t, pool, larger, hash, s.children[k], n.children[k]);
    }
  }

  lemma {:induction false} PropertiesStay(t: Tables, pool: seq<Bytes>, larger: seq<Bytes>,
                                          ss: seq<SourceProperty>, ps: seq<PropertyExpression>)
    requires PropertiesMean(t, pool, ss, ps) && pool <= larger
    ensures PropertiesMean(t, larger, ss, ps)
  {
    forall k | 0 <= k < |ss| ensures TemplateMeans(t.states, larger, ss[k].template, ps[k].segments) {
      SegmentsStay(t.states, pool, larger, Pieces(ss[k].template), ps[k].segments);
    }
  }

  // -------- the rule for handlers that read the event's value --------

  function EventsFor(es: seq<SourceEvent>, handler: Bytes): seq<EventType> {
    if es == [] then []
    else (if es[0].handler == handler then [es[0].event] else []) + EventsFor(es[1..], handler)
  }

  // The events of the tree that lead to the handler, in document order.
  function BoundEvents(n: SourceNode, handler: Bytes): seq<EventType>
    decreases n, 1
  {
    EventsFor(n.events, handler) + BoundEventsAll(n.children, handler)
  }

  function BoundEventsAll(ns: seq<SourceNode>, handler: Bytes): seq<EventType>
    decreases ns, 0
  {
    if ns == [] then [] else BoundEvents(ns[0], handler) + BoundEventsAll(ns[1..], handler)
  }

  function Roots(pages: seq<PageSpec>): (r: seq<SourceNode>)
    ensures |r| == |pages|
  {
    seq(|pages|, i requires 0 <= i < |pages| => pages[i].root)
  }

  predicate ValueEvents(es: seq<EventType>) {
    forall k | 0 <= k < |es| :: es[k] == CHANGE || es[k] == SUBMIT
  }

  function ReaderNames(hs: seq<HandlerSpec>): set<Bytes> {
    set h | h in hs && UsesInput(h.body) :: h.name
  }

  ghost predicate BindingRule(s: Source) {
    var readers := ReaderNames(s.handlers);
    readers != {} ==>
      && (s.entryHandler.Some? ==> s.entryHandler.value !in readers)
      && forall h :: h in readers ==>
           var es := BoundEventsAll(Roots(s.pages), h);
           es != [] && ValueEvents(es)
  }
}

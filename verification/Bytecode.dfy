/** The loaded module: values, instructions, the UI description and resource
    limits, as the parser builds them and the interpreter reads them. */
module Bytecode {
  import opened Basics

  datatype ValueType = Integer | Boolean | String

  datatype Value = IntValue(i: i64) | BoolValue(b: bool) | StringValue(s: Bytes)

  function TypeOf(v: Value): ValueType {
    match v
    case IntValue(_) => Integer
    case BoolValue(_) => Boolean
    case StringValue(_) => String
  }

  function TypesOf(vs: seq<Value>): (ts: seq<ValueType>)
    ensures |ts| == |vs|
  {
    seq(|vs|, i requires 0 <= i < |vs| => TypeOf(vs[i]))
  }

  // Bytes a value is charged against the state budget.
  function ValueSize(v: Value): nat {
    if v.StringValue? then |v.s| else 8
  }

  function StateSize(vs: seq<Value>): nat {
    if vs == [] then 0 else ValueSize(vs[0]) + StateSize(vs[1..])
  }

  datatype Instruction =
    | Constant(value: Value)
    | StateGet(slot: u16)
    | StateSet(slot: u16)
    | IntegerAdd
    | Equal
    | Jump(target: u32)
    | JumpIfFalse(target: u32)
    | Effect(capability: u16, operation: u16, arity: u8)
    | Pop
    | Render(page: u16)
    | Halt
    | AsyncEffect(capability: u16, operation: u16, arity: u8)
    | EventValue

  type Code = seq<Instruction>

  // Node, property and event kinds keep their wire numbers.
  type NodeType = x: int | 1 <= x <= 11 witness 1
  type PropertyKey = x: int | 1 <= x <= 6 witness 1
  type EventType = x: int | 1 <= x <= 4 witness 1

  const LIST: NodeType := 7
  const INPUT: NodeType := 9
  const SWITCH: NodeType := 10
  const NATIVE_SURFACE: NodeType := 11
  const VALUE_KEY: PropertyKey := 5
  const TAP: EventType := 1
  const CHANGE: EventType := 2
  const SUBMIT: EventType := 3
  const APPEAR: EventType := 4

  datatype Segment = ConstantText(index: u16) | StateText(index: u16)

  datatype PropertyExpression = PropertyExpression(key: PropertyKey, segments: seq<Segment>)

  datatype EventBinding = EventBinding(event: EventType, handler: u16)

  datatype UiNode = UiNode(
    kind: NodeType,
    id: u32,
    properties: seq<PropertyExpression>,
    events: seq<EventBinding>,
    children: seq<UiNode>)

  // Preorder list of node IDs.
  function Ids(node: UiNode): seq<u32>
    decreases node, 1
  {
    [node.id] + IdsAll(node.children)
  }

  function IdsAll(nodes: seq<UiNode>): seq<u32>
    decreases nodes, 0
  {
    if nodes == [] then [] else Ids(nodes[0]) + IdsAll(nodes[1..])
  }

  function Depth(node: UiNode): nat
    decreases node, 1
  {
    1 + DepthAll(node.children)
  }

  function DepthAll(nodes: seq<UiNode>): nat
    decreases nodes, 0
  {
    if nodes == [] then 0
    else
      var first, rest := Depth(nodes[0]), DepthAll(nodes[1..]);
      if first < rest then rest else first
  }

  datatype Limits = Limits(
    maxInstructions: u32,
    maxStack: u32,
    maxStateBytes: u32,
    maxUiNodes: u32,
    maxTasks: u32)

  datatype Module = Module(
    format: u16,
    minimumRuntime: u16,
    release: u64,
    profile: u8,
    platform: u8,
    moduleId: Bytes,
    applicationId: Bytes,
    tenant: Bytes,
    channel: Bytes,
    stateSchema: u64,
    keyVersion: u32,
    limits: Limits,
    capabilities: seq<Bytes>,
    capabilityVersions: seq<u16>,
    domains: seq<Bytes>,
    storageScopes: seq<Bytes>,
    constants: seq<Bytes>,
    stateIds: seq<u64>,
    initialState: seq<Value>,
    handlers: seq<Code>,
    pages: seq<UiNode>,
    entryPage: u16,
    entryHandler: Option<u16>)

  const MAX_BUDGET := 10_000_000
  const MAX_UI_DEPTH := 64
  const MAX_HANDLER := 1_000_000
  const MAX_ARGUMENTS := 32

  predicate LimitsOk(l: Limits) {
    && 0 < l.maxInstructions <= MAX_BUDGET
    && 0 < l.maxStack <= MAX_BUDGET
    && 0 < l.maxStateBytes <= MAX_BUDGET
    && 0 < l.maxUiNodes <= MAX_BUDGET
    && 0 < l.maxTasks <= MAX_BUDGET
  }

  // Operand ranges the parser enforces while it reads an instruction.
  predicate OperandsOk(m: Module, i: Instruction) {
    match i
    case Constant(v) => v.StringValue? ==> v.s in m.constants
    case StateGet(slot) => slot < |m.initialState|
    case StateSet(slot) => slot < |m.initialState|
    case Effect(c, o, n) => c < |m.capabilities| && o < |m.constants| && n <= MAX_ARGUMENTS
    case AsyncEffect(c, o, n) =>
      m.format >= 2 && c < |m.capabilities| && o < |m.constants| && n <= MAX_ARGUMENTS
    case EventValue => m.format >= 5
    case _ => true
  }

  predicate SegmentOk(m: Module, s: Segment) {
    match s
    case ConstantText(i) => i < |m.constants|
    case StateText(i) => i < |m.initialState|
  }

  ghost predicate PropertyOk(m: Module, p: PropertyExpression) {
    && 0 < |p.segments| <= 1024
    && forall i :: 0 <= i < |p.segments| ==> SegmentOk(m, p.segments[i])
  }

  function Keys(ps: seq<PropertyExpression>): (ks: seq<PropertyKey>)
    ensures |ks| == |ps|
  {
    seq(|ps|, i requires 0 <= i < |ps| => ps[i].key)
  }

  function EventsOf(bs: seq<EventBinding>): (es: seq<EventType>)
    ensures |es| == |bs|
  {
    seq(|bs|, i requires 0 <= i < |bs| => bs[i].event)
  }

  // What one node's own record must satisfy, children aside.
  ghost predicate LocalNodeOk(m: Module, n: UiNode) {
    && n.id != 0
    && |n.properties| <= MAX_U16 && |n.events| <= MAX_U16 && |n.children| <= MAX_U16
    && (forall i :: 0 <= i < |n.properties| ==> PropertyOk(m, n.properties[i]))
    && Distinct(Keys(n.properties))
    && (forall i :: 0 <= i < |n.events| ==> n.events[i].handler < |m.handlers|)
    && Distinct(EventsOf(n.events))
  }

  ghost predicate NodeOk(m: Module, n: UiNode)
    decreases n
  {
    LocalNodeOk(m, n) && forall i :: 0 <= i < |n.children| ==> NodeOk(m, n.children[i])
  }

  ghost predicate PagesOk(m: Module) {
    && 0 < |m.pages| <= MAX_U16
    && (forall i :: 0 <= i < |m.pages| ==> NodeOk(m, m.pages[i]) && Depth(m.pages[i]) <= MAX_UI_DEPTH)
    && Distinct(IdsAll(m.pages))
    && |IdsAll(m.pages)| <= m.limits.maxUiNodes
  }

  ghost predicate HandlersOk(m: Module) {
    forall h :: 0 <= h < |m.handlers| ==>
      0 < |m.handlers[h]| <= MAX_HANDLER
      && forall pc :: 0 <= pc < |m.handlers[h]| ==> OperandsOk(m, m.handlers[h][pc])
  }
}

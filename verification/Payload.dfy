/** Whole payloads: parse_payload, its printer, and what a successful parse means. */
module Payload {
  import opened Basics
  import opened ByteCodec
  import opened Codecs
  import opened Bytecode
  import opened Elements
  import opened HandlerVerifier
  import opened StateCodec
  import opened FrameTypes
  import opened Format

  // -------- sections --------

  datatype Head = Head(
    format: u16, minimumRuntime: u16, release: u64, profile: u8, platform: u8,
    moduleId: Bytes, applicationId: Bytes, tenant: Bytes, channel: Bytes,
    stateSchema: u64, keyVersion: u32)

  type Numbers = (u16, (u16, (u64, (u8, u8))))
  type Names = (Bytes, (Bytes, (Bytes, (Bytes, (u64, u32)))))

  function HeadFrom(x: (Numbers, Names)): Head {
    var n, t := x.0, x.1;
    Head(n.0, n.1.0, n.1.1.0, n.1.1.1.0, n.1.1.1.1,
         t.0, t.1.0, t.1.1.0, t.1.1.1.0, t.1.1.1.1.0, t.1.1.1.1.1)
  }

  function HeadTo(h: Head): (Numbers, Names) {
    ((h.format, (h.minimumRuntime, (h.release, (h.profile, h.platform)))),
     (h.moduleId, (h.applicationId, (h.tenant, (h.channel, (h.stateSchema, h.keyVersion))))))
  }

  predicate HeadOk(h: Head) {
    && 1 <= h.format <= 5
    && h.format <= h.minimumRuntime <= RUNTIME_VERSION
    && h.release > 0
    && 1 <= h.profile <= 4 && 1 <= h.platform <= 4
    && h.stateSchema > 0 && h.keyVersion > 0
  }

  function NumbersC(): Codec<Numbers> {
    Both(U16C(), Both(U16C(), Both(U64C(), Both(U8C(), U8C()))))
  }

  function NamesC(): Codec<Names> {
    Both(TextC(), Both(TextC(), Both(TextC(), Both(TextC(), Both(U64C(), U32C())))))
  }

  function HeadC(): Codec<Head> {
    Only(Via(Both(NumbersC(), NamesC()), (x: (Numbers, Names)) => HeadFrom(x), (h: Head) => HeadTo(h)),
         (h: Head) => HeadOk(h))
  }

  function TasksC(format: u16): Codec<u32> {
    if format >= 2 then U32C() else Absent<u32>(64)
  }

  function LimitsC(format: u16): Codec<Limits> {
    Only(Via(Both(U32C(), Both(U32C(), Both(U32C(), Both(U32C(), TasksC(format))))),
             (x: (u32, (u32, (u32, (u32, u32))))) => Limits(x.0, x.1.0, x.1.1.0, x.1.1.1.0, x.1.1.1.1),
             (l: Limits) => (l.maxInstructions, (l.maxStack, (l.maxStateBytes, (l.maxUiNodes, l.maxTasks))))),
         (l: Limits) => LimitsOk(l))
  }

  function TextTable(): Codec<seq<Bytes>> {
    Counted(Count16(), TextC())
  }

  function Ones(n: nat): seq<u16> {
    seq(n, i => 1)
  }

  function VersionsC(format: u16, n: nat): Codec<seq<u16>> {
    if format >= 3
    then Only(Exactly(n, U16C()), (vs: seq<u16>) => forall i | 0 <= i < |vs| :: vs[i] != 0)
    else Absent<seq<u16>>(Ones(n))
  }

  function TablesC(): Codec<(seq<Bytes>, (seq<Bytes>, seq<Bytes>))> {
    Both(TextTable(), Both(TextTable(), TextTable()))
  }

  function StateIdC(format: u16): Codec<u64> {
    if format >= 4 then U64C() else Absent<u64>(0)
  }

  function StatesC(format: u16, pool: seq<Bytes>): Codec<seq<(u64, Value)>> {
    Counted(Count16(), Both(StateIdC(format), TypedC(pool)))
  }

  function CodeC(m: Module): Codec<Code> {
    Only(Counted(U32C(), InstructionC(m)), (code: Code) => 0 < |code| <= MAX_HANDLER)
  }

  function HandlersC(m: Module): Codec<seq<Code>> {
    Counted(Count16(), CodeC(m))
  }

  ghost function PagesC(m: Module): Codec<seq<UiNode>> {
    Codec((ns: seq<UiNode>) => Put16(|ns| % 0x1_0000) + PutNodes(m, ns),
          b => match Get16(b) case Fail => Fail case Done(n, rest) => GetNodes(m, MAX_UI_DEPTH, n, rest),
          (ns: seq<UiNode>) => |ns| <= MAX_U16 && forall i :: 0 <= i < |ns| ==> NodeFits(m, MAX_UI_DEPTH, ns[i]))
  }

  function EntryC(): Codec<(u16, u16)> {
    Both(U16C(), U16C())
  }

  // -------- lawfulness of the sections --------

  lemma {:induction false} HeadTuples(x: (Numbers, Names))
    ensures HeadTo(HeadFrom(x)) == x
  {
    assert x == (x.0, x.1);
  }

  lemma {:induction false} NumbersLawful()
    ensures Lawful(NumbersC())
  {
    U8Lawful(); U16Lawful(); U64Lawful();
    hide Lawful, U8C, U16C, U64C, Both;
    BothLawful(U8C(), U8C());
    BothLawful(U64C(), Both(U8C(), U8C()));
    BothLawful(U16C(), Both(U64C(), Both(U8C(), U8C())));
    BothLawful(U16C(), Both(U16C(), Both(U64C(), Both(U8C(), U8C()))));
  }

  lemma {:induction false} NamesLawful()
    ensures Lawful(NamesC())
  {
    U32Lawful(); U64Lawful(); TextLawful();
    hide Lawful, U32C, U64C, TextC, Both;
    var last := Both(U64C(), U32C());
    BothLawful(U64C(), U32C());
    BothLawful(TextC(), last);
    BothLawful(TextC(), Both(TextC(), last));
    BothLawful(TextC(), Both(TextC(), Both(TextC(), last)));
    BothLawful(TextC(), Both(TextC(), Both(TextC(), Both(TextC(), last))));
  }

  lemma {:induction false} HeadLawful()
    ensures Lawful(HeadC())
  {
    NumbersLawful();
    NamesLawful();
    hide Lawful, NumbersC, NamesC, Both, HeadOk;
    BothLawful(NumbersC(), NamesC());
    forall x: (Numbers, Names) ensures HeadTo(HeadFrom(x)) == x {
      HeadTuples(x);
    }
    ViaLawful(Both(NumbersC(), NamesC()), (x: (Numbers, Names)) => HeadFrom(x), (h: Head) => HeadTo(h));
    OnlyLawful(Via(Both(NumbersC(), NamesC()), (x: (Numbers, Names)) => HeadFrom(x), (h: Head) => HeadTo(h)),
               (h: Head) => HeadOk(h));
  }

  lemma {:induction false} LimitsLawful(format: u16)
    ensures Lawful(LimitsC(format))
  {
    U32Lawful();
    AbsentLawful<u32>(64);
    assert Lawful(TasksC(format));
    hide Lawful, U32C, TasksC, Both, LimitsOk;
    BothLawful(U32C(), TasksC(format));
    BothLawful(U32C(), Both(U32C(), TasksC(format)));
    BothLawful(U32C(), Both(U32C(), Both(U32C(), TasksC(format))));
    BothLawful(U32C(), Both(U32C(), Both(U32C(), Both(U32C(), TasksC(format)))));
    var all := Both(U32C(), Both(U32C(), Both(U32C(), Both(U32C(), TasksC(format)))));
    ViaLawful(all, (x: (u32, (u32, (u32, (u32, u32))))) => Limits(x.0, x.1.0, x.1.1.0, x.1.1.1.0, x.1.1.1.1),
              (l: Limits) => (l.maxInstructions, (l.maxStack, (l.maxStateBytes, (l.maxUiNodes, l.maxTasks)))));
    OnlyLawful(Via(all, (x: (u32, (u32, (u32, (u32, u32))))) => Limits(x.0, x.1.0, x.1.1.0, x.1.1.1.0, x.1.1.1.1),
              (l: Limits) => (l.maxInstructions, (l.maxStack, (l.maxStateBytes, (l.maxUiNodes, l.maxTasks))))),
              (l: Limits) => LimitsOk(l));
  }

  lemma {:induction false} TextTableLawful()
    ensures Lawful(TextTable()) && Lawful(TablesC())
  {
    TextLawful();
    Count16Lawful();
    hide Lawful, TextC, Count16, Counted, Both;
    CountedLawful(Count16(), TextC());
    BothLawful(TextTable(), TextTable());
    BothLawful(TextTable(), Both(TextTable(), TextTable()));
  }

  lemma {:induction false} VersionsLawful(format: u16, n: nat)
    ensures Lawful(VersionsC(format, n))
  {
    U16Lawful();
    AbsentLawful<seq<u16>>(Ones(n));
    hide Lawful, U16C, Exactly, Absent;
    ExactlyLawful(n, U16C());
    OnlyLawful(Exactly(n, U16C()), (vs: seq<u16>) => forall i | 0 <= i < |vs| :: vs[i] != 0);
  }

  lemma {:induction false} StatesLawful(format: u16, pool: seq<Bytes>)
    requires PoolOk(pool)
    ensures Lawful(StatesC(format, pool))
  {
    U64Lawful();
    AbsentLawful<u64>(0);
    Count16Lawful();
    TypedLawful(pool);
    assert Lawful(StateIdC(format));
    hide Lawful, StateIdC, TypedC, Both, Count16, Counted;
    BothLawful(StateIdC(format), TypedC(pool));
    CountedLawful(Count16(), Both(StateIdC(format), TypedC(pool)));
  }

  lemma {:induction false} HandlersLawful(m: Module)
    requires PoolOk(m.constants)
    ensures Lawful(HandlersC(m))
  {
    U32Lawful();
    Count16Lawful();
    InstructionLawful(m);
    hide Lawful, U32C, Count16, InstructionC, Counted, Only;
    CountedLawful(U32C(), InstructionC(m));
    OnlyLawful(Counted(U32C(), InstructionC(m)), (code: Code) => 0 < |code| <= MAX_HANDLER);
    CountedLawful(Count16(), CodeC(m));
  }

  lemma {:induction false} PagesLawful(m: Module)
    ensures Lawful(PagesC(m))
  {
    hide Put16, Get16, PutNodes, GetNodes, NodeFits;
    var e := PagesC(m);
    forall ns: seq<UiNode>, r: Bytes | e.ok(ns) ensures e.get(e.put(ns) + r) == Done(ns, r) {
      assert |ns| % 0x1_0000 == |ns|;
      assert e.put(ns) + r == Put16(|ns|) + (PutNodes(m, ns) + r);
      Codec16(|ns|, PutNodes(m, ns) + r, []);
      NodesPutGet(m, MAX_UI_DEPTH, ns, r);
    }
    forall b: Bytes | e.get(b).Done? ensures e.ok(e.get(b).value) && b == e.put(e.get(b).value) + e.get(b).rest {
      Codec16(0, [], b);
      var n, rest := Get16(b).value, Get16(b).rest;
      NodesGetPut(m, MAX_UI_DEPTH, n, rest);
      var ns, r := GetNodes(m, MAX_UI_DEPTH, n, rest).value, GetNodes(m, MAX_UI_DEPTH, n, rest).rest;
      assert |ns| % 0x1_0000 == n;
      assert b == Put16(n) + (PutNodes(m, ns) + r);
    }
  }

  lemma {:induction false} EntryLawful()
    ensures Lawful(EntryC())
  {
    U16Lawful();
    hide Lawful, U16C, Both;
    BothLawful(U16C(), U16C());
  }

  // -------- what a payload may hold --------

  function HeadOf(m: Module): Head {
    Head(m.format, m.minimumRuntime, m.release, m.profile, m.platform, m.moduleId, m.applicationId,
         m.tenant, m.channel, m.stateSchema, m.keyVersion)
  }

  predicate Short(s: Bytes) {
    |s| <= MAX_U16
  }

  predicate AllShort(ss: seq<Bytes>) {
    forall i | 0 <= i < |ss| :: Short(ss[i])
  }

  predicate HeadTextsOk(m: Module) {
    Short(m.moduleId) && Short(m.applicationId) && Short(m.tenant) && Short(m.channel)
  }

  ghost predicate TablesOk(m: Module) {
    && |m.capabilities| <= 4096 && |m.domains| <= 4096 && |m.storageScopes| <= 4096
    && |m.constants| <= MAX_U16
    && AllShort(m.capabilities) && AllShort(m.domains) && AllShort(m.storageScopes) && AllShort(m.constants)
    && Distinct(m.capabilities) && Distinct(m.domains) && Distinct(m.storageScopes) && Distinct(m.constants)
    && |m.capabilityVersions| == |m.capabilities|
    && (if m.format >= 3 then forall i :: 0 <= i < |m.capabilityVersions| ==> m.capabilityVersions[i] != 0
        else m.capabilityVersions == Ones(|m.capabilities|))
  }

  ghost predicate StatesOk(m: Module) {
    && StateOk(m)
    && StateSize(m.initialState) <= m.limits.maxStateBytes
    && forall i :: 0 <= i < |m.initialState| ==>
         (m.initialState[i].StringValue? ==> m.initialState[i].s in m.constants)
  }

  ghost predicate CodeOk(m: Module) {
    && |m.handlers| <= MAX_U16 && HandlersOk(m)
    && forall h :: 0 <= h < |m.handlers| ==> Typable(m, RuntimePolicy, m.handlers[h])
  }

  predicate EntryOk(m: Module) {
    && m.entryPage < |m.pages|
    && (m.entryHandler.Some? ==> m.entryHandler.value < |m.handlers| && m.entryHandler.value != MAX_U16)
  }

  // The modules that a payload of formats 1 to 5 can carry within the hard limits.
  ghost predicate Valid(m: Module) {
    && HeadOk(HeadOf(m)) && HeadTextsOk(m)
    && LimitsOk(m.limits) && (m.format < 2 ==> m.limits.maxTasks == 64)
    && TablesOk(m) && StatesOk(m) && PagesOk(m) && EntryOk(m)
    && CodeOk(m)
  }

  lemma {:induction false} ValidIsLoaded(m: Module)
    requires Valid(m)
    ensures Loaded(m)
  {
  }

  // -------- printing --------

  function Entries(m: Module): seq<(u64, Value)> {
    seq(|m.initialState|, i requires 0 <= i < |m.initialState| =>
      (if i < |m.stateIds| then m.stateIds[i] else 0, m.initialState[i]))
  }

  // The module without the sections that follow the state table, and without those
  // that follow the handlers.
  function Base(m: Module): Module {
    m.(handlers := [], pages := [], entryPage := 0, entryHandler := None)
  }

  function Shell(m: Module): Module {
    m.(pages := [], entryPage := 0, entryHandler := None)
  }

  function EntryOf(m: Module): (u16, u16) {
    (m.entryPage, if m.entryHandler.Some? then m.entryHandler.value else MAX_U16)
  }

  ghost function EncodeFromStates(m: Module): Bytes {
    StatesC(m.format, m.constants).put(Entries(m))
    + (HandlersC(Base(m)).put(m.handlers) + (PagesC(Shell(m)).put(m.pages) + EntryC().put(EntryOf(m))))
  }

  ghost function EncodeFromTables(m: Module): Bytes {
    TextTable().put(m.capabilities)
    + (VersionsC(m.format, |m.capabilities|).put(m.capabilityVersions)
       + (TablesC().put((m.domains, (m.storageScopes, m.constants))) + EncodeFromStates(m)))
  }

  ghost function Encode(m: Module): Bytes {
    PVBC + (HeadC().put(HeadOf(m)) + (LimitsC(m.format).put(m.limits) + EncodeFromTables(m)))
  }

  // -------- parsing --------

  ghost function ParseEntry(m: Module, b: Bytes): Option<Module> {
    match EntryC().get(b)
    case Fail => None
    case Done(e, rest) =>
      var m' := m.(entryPage := e.0, entryHandler := if e.1 == MAX_U16 then None else Some(e.1));
      if !EntryOk(m') || rest != [] then None
      else if !CodeOk(m') then None
      else Some(m')
  }

  ghost function ParsePages(m: Module, b: Bytes): Option<Module> {
    match PagesC(m).get(b)
    case Fail => None
    case Done(pages, rest) =>
      var m' := m.(pages := pages);
      if !PagesOk(m') then None else ParseEntry(m', rest)
  }

  ghost function ParseHandlers(m: Module, b: Bytes): Option<Module> {
    match HandlersC(m).get(b)
    case Fail => None
    case Done(handlers, rest) => ParsePages(m.(handlers := handlers), rest)
  }

  function FieldIds(format: u16, es: seq<(u64, Value)>): seq<u64> {
    if format >= 4 then seq(|es|, i requires 0 <= i < |es| => es[i].0) else []
  }

  function FieldValues(es: seq<(u64, Value)>): seq<Value> {
    seq(|es|, i requires 0 <= i < |es| => es[i].1)
  }

  ghost function ParseStates(m: Module, b: Bytes): Option<Module> {
    match StatesC(m.format, m.constants).get(b)
    case Fail => None
    case Done(es, rest) =>
      var m' := m.(stateIds := FieldIds(m.format, es), initialState := FieldValues(es));
      if !StatesOk(m') then None else ParseHandlers(m', rest)
  }

  function Start(h: Head, l: Limits): Module {
    Module(h.format, h.minimumRuntime, h.release, h.profile, h.platform, h.moduleId, h.applicationId,
           h.tenant, h.channel, h.stateSchema, h.keyVersion, l, [], [], [], [], [], [], [], [], [], 0, None)
  }

  ghost function ParseTables(h: Head, l: Limits, b: Bytes): Option<Module> {
    match TextTable().get(b)
    case Fail => None
    case Done(capabilities, b1) =>
      match VersionsC(h.format, |capabilities|).get(b1)
      case Fail => None
      case Done(versions, b2) =>
        match TablesC().get(b2)
        case Fail => None
        case Done(tables, b3) =>
          var m := Start(h, l).(capabilities := capabilities, capabilityVersions := versions,
                                domains := tables.0, storageScopes := tables.1.0, constants := tables.1.1);
          if !TablesOk(m) then None else ParseStates(m, b3)
  }

  ghost function Parse(b: Bytes): Option<Module> {
    match GetBytes(b, 4)
    case Fail => None
    case Done(magic, b0) =>
      if magic != PVBC then None
      else
        match HeadC().get(b0)
        case Fail => None
        case Done(h, b1) =>
          match LimitsC(h.format).get(b1)
          case Fail => None
          case Done(l, b2) => ParseTables(h, l, b2)
  }

  // The bindings a host may demand; empty texts demand nothing.
  datatype Expectation = Expectation(application: Bytes, channel: Bytes, platform: Option<u8>, profile: Option<u8>,
                                     minimumRelease: u64)

  predicate Meets(m: Module, e: Expectation) {
    && m.applicationId == e.application
    && (e.channel != [] ==> m.channel == e.channel)
    && (e.platform.Some? ==> m.platform == e.platform.value)
    && (e.profile.Some? ==> m.profile == e.profile.value)
    && m.release >= e.minimumRelease
  }

  ghost function ParsePayload(b: Bytes, e: Expectation): Option<Module> {
    match Parse(b) case None => None case Some(m) => if Meets(m, e) then Some(m) else None
  }

  // -------- what the codecs accept, in plain terms --------

  lemma {:induction false} FitsIff(m: Module, d: nat, n: UiNode)
    ensures NodeFits(m, d, n) <==> NodeOk(m, n) && Depth(n) <= d
    decreases n, 1
  {
    FitsAllIff(m, if d > 0 then d - 1 else 0, n.children);
    assert LocalNodeOk(m, n) <==> LocalOk(m, LocalOf(n)) && |n.children| <= MAX_U16;
  }

  lemma {:induction false} DepthOfAll(ns: seq<UiNode>, d: nat)
    ensures DepthAll(ns) <= d <==> forall i :: 0 <= i < |ns| ==> Depth(ns[i]) <= d
  {
    hide Depth;
    if ns == [] {
    } else {
      DepthOfAll(ns[1..], d);
      assert ns == [ns[0]] + ns[1..];
    }
  }

  lemma {:induction false} FitsAllIff(m: Module, d: nat, ns: seq<UiNode>)
    ensures (forall i :: 0 <= i < |ns| ==> NodeFits(m, d, ns[i])) <==>
      (forall i :: 0 <= i < |ns| ==> NodeOk(m, ns[i])) && DepthAll(ns) <= d
    ensures forall i :: 0 <= i < |ns| ==> (NodeFits(m, d, ns[i]) <==> NodeOk(m, ns[i]) && Depth(ns[i]) <= d)
    decreases ns, 0
  {
    hide NodeFits, NodeOk, Depth;
    if ns == [] {
    } else {
      FitsIff(m, d, ns[0]);
      FitsAllIff(m, d, ns[1..]);
      var rest := ns[1..];
      forall i | 0 <= i < |ns| ensures NodeFits(m, d, ns[i]) <==> NodeOk(m, ns[i]) && Depth(ns[i]) <= d {
        assert i > 0 ==> ns[i] == rest[i - 1];
      }
      DepthOfAll(ns, d);
    }
  }
}

/** Printer and parser are inverse both ways, and a parsed module is well formed. */
module PayloadRoundTrip {
  import opened Basics
  import opened ByteCodec
  import opened Codecs
  import opened Bytecode
  import opened Elements
  import opened HandlerVerifier
  import opened FrameTypes
  import opened Format
  import opened Payload

  // -------- what the section codecs accept, in plain terms --------

  lemma {:induction false} HeadAccepts(m: Module)
    ensures HeadC().ok(HeadOf(m)) <==> HeadOk(HeadOf(m)) && HeadTextsOk(m)
  {
  }

  lemma {:induction false} LimitsAccepts(format: u16, l: Limits)
    ensures LimitsC(format).ok(l) <==> LimitsOk(l) && (format < 2 ==> l.maxTasks == 64)
  {
  }

  lemma {:induction false} TextTableAccepts(ss: seq<Bytes>)
    ensures TextTable().ok(ss) <==> |ss| <= MAX_U16 && AllShort(ss)
  {
    assert AllOk(TextC(), ss) <==> AllShort(ss);
  }

  lemma {:induction false} VersionsAccepts(format: u16, n: nat, vs: seq<u16>)
    ensures VersionsC(format, n).ok(vs) <==>
      if format >= 3 then |vs| == n && forall i :: 0 <= i < |vs| ==> vs[i] != 0 else vs == Ones(n)
  {
    assert AllOk(U16C(), vs);
  }

  ghost predicate EntriesOk(format: u16, pool: seq<Bytes>, es: seq<(u64, Value)>) {
    |es| <= MAX_U16 && forall i :: 0 <= i < |es| ==>
      (format < 4 ==> es[i].0 == 0) && (es[i].1.StringValue? ==> es[i].1.s in pool)
  }

  lemma {:induction false} StatesAccepts(format: u16, pool: seq<Bytes>, es: seq<(u64, Value)>)
    ensures StatesC(format, pool).ok(es) <==> EntriesOk(format, pool, es)
  {
    var c := Both(StateIdC(format), TypedC(pool));
    assert forall i :: 0 <= i < |es| ==>
      (c.ok(es[i]) <==> (format < 4 ==> es[i].0 == 0) && (es[i].1.StringValue? ==> es[i].1.s in pool));
    assert AllOk(c, es) <==> forall i :: 0 <= i < |es| ==> c.ok(es[i]);
  }

  lemma {:induction false} CodeAccepts(m: Module, code: Code)
    ensures CodeC(m).ok(code) <==> 0 < |code| <= MAX_HANDLER && Operands(m, code)
  {
    assert AllOk(InstructionC(m), code) <==> Operands(m, code);
  }

  lemma {:induction false} HandlersAccepts(m: Module, hs: seq<Code>)
    ensures HandlersC(m).ok(hs) <==>
      |hs| <= MAX_U16 && forall h :: 0 <= h < |hs| ==> 0 < |hs[h]| <= MAX_HANDLER && Operands(m, hs[h])
  {
    var c := CodeC(m);
    forall h | 0 <= h < |hs| ensures c.ok(hs[h]) <==> 0 < |hs[h]| <= MAX_HANDLER && Operands(m, hs[h]) {
      CodeAccepts(m, hs[h]);
    }
    assert AllOk(c, hs) <==> forall h :: 0 <= h < |hs| ==> c.ok(hs[h]);
  }

  lemma {:induction false} PagesAccepts(m: Module, ns: seq<UiNode>)
    ensures PagesC(m).ok(ns) <==>
      |ns| <= MAX_U16 && forall i :: 0 <= i < |ns| ==> NodeOk(m, ns[i]) && Depth(ns[i]) <= MAX_UI_DEPTH
  {
    forall i | 0 <= i < |ns|
      ensures NodeFits(m, MAX_UI_DEPTH, ns[i]) <==> NodeOk(m, ns[i]) && Depth(ns[i]) <= MAX_UI_DEPTH
    {
      FitsIff(m, MAX_UI_DEPTH, ns[i]);
    }
  }

  // -------- sections ignore what they do not read --------

  lemma {:induction false} NodeOkLocal(a: Module, b: Module, n: UiNode)
    requires |a.constants| == |b.constants| && |a.initialState| == |b.initialState| && |a.handlers| == |b.handlers|
    ensures NodeOk(a, n) <==> NodeOk(b, n)
    decreases n
  {
    forall i | 0 <= i < |n.properties| ensures PropertyOk(a, n.properties[i]) <==> PropertyOk(b, n.properties[i]) {
      forall j | 0 <= j < |n.properties[i].segments|
        ensures SegmentOk(a, n.properties[i].segments[j]) <==> SegmentOk(b, n.properties[i].segments[j])
      {
      }
    }
    forall i | 0 <= i < |n.children| ensures NodeOk(a, n.children[i]) <==> NodeOk(b, n.children[i]) {
      NodeOkLocal(a, b, n.children[i]);
    }
  }

  lemma {:induction false} PagesOkLocal(a: Module, b: Module)
    requires |a.constants| == |b.constants| && |a.initialState| == |b.initialState| && |a.handlers| == |b.handlers|
    requires a.pages == b.pages && a.limits == b.limits
    ensures PagesOk(a) <==> PagesOk(b)
  {
    forall i | 0 <= i < |a.pages| ensures NodeOk(a, a.pages[i]) <==> NodeOk(b, a.pages[i]) {
      NodeOkLocal(a, b, a.pages[i]);
    }
  }

  lemma {:induction false} OperandsLocal(a: Module, b: Module, code: Code)
    requires a.format == b.format && a.constants == b.constants
    requires |a.capabilities| == |b.capabilities| && |a.initialState| == |b.initialState|
    ensures Operands(a, code) <==> Operands(b, code)
  {
  }

  // -------- parsing what was printed --------

  lemma {:induction false} EntryPrinted(m: Module)
    requires EntryOk(m) && CodeOk(m)
    ensures ParseEntry(m.(entryPage := 0, entryHandler := None), EntryC().put(EntryOf(m))) == Some(m)
  {
    EntryLawful();
    hide EntryC, CodeOk;
    var b := EntryC().put(EntryOf(m));
    assert b + [] == b;
    assert EntryC().ok(EntryOf(m)) by { EntryAccepts(EntryOf(m)); }
  }

  lemma {:induction false} EntryAccepts(e: (u16, u16))
    ensures EntryC().ok(e)
  {
  }

  lemma {:induction false} PagesPrinted(m: Module)
    requires PagesOk(m) && EntryOk(m) && CodeOk(m)
    ensures ParsePages(Shell(m), PagesC(Shell(m)).put(m.pages) + EntryC().put(EntryOf(m))) == Some(m)
  {
    var s := Shell(m);
    PagesLawful(s);
    forall i | 0 <= i < |m.pages| ensures NodeOk(s, m.pages[i]) {
      NodeOkLocal(m, s, m.pages[i]);
    }
    PagesAccepts(s, m.pages);
    PagesOkLocal(m, s.(pages := m.pages));
    EntryPrinted(m);
    hide PagesC, EntryC, ParseEntry, PagesOk, CodeOk;
    assert s.(pages := m.pages) == m.(entryPage := 0, entryHandler := None);
  }

  lemma {:induction false} HandlersPrinted(m: Module)
    requires PoolOk(m.constants) && PagesOk(m) && EntryOk(m) && CodeOk(m)
    ensures ParseHandlers(Base(m), HandlersC(Base(m)).put(m.handlers)
              + (PagesC(Shell(m)).put(m.pages) + EntryC().put(EntryOf(m)))) == Some(m)
  {
    var base := Base(m);
    HandlersLawful(base);
    forall h | 0 <= h < |m.handlers| ensures Operands(base, m.handlers[h]) {
      OperandsLocal(m, base, m.handlers[h]);
    }
    HandlersAccepts(base, m.handlers);
    PagesPrinted(m);
    hide HandlersC, PagesC, EntryC, ParsePages, PagesOk, CodeOk, Lawful;
    Taken(HandlersC(base), m.handlers, PagesC(Shell(m)).put(m.pages) + EntryC().put(EntryOf(m)));
    assert base.(handlers := m.handlers) == Shell(m);
  }

  lemma {:induction false} Taken<T(!new)>(c: Codec<T>, x: T, r: Bytes)
    requires Lawful(c) && c.ok(x)
    ensures c.get(c.put(x) + r) == Done(x, r)
  {
  }

  lemma {:induction false} StatesPrinted(m: Module)
    requires TablesOk(m) && StatesOk(m) && PagesOk(m) && EntryOk(m) && CodeOk(m)
    ensures ParseStates(Base(m).(stateIds := [], initialState := []), EncodeFromStates(m)) == Some(m)
  {
    StatesLawful(m.format, m.constants);
    EntriesBack(m);
    StatesAccepts(m.format, m.constants, Entries(m));
    HandlersPrinted(m);
    StatesOkLocal(m, Base(m));
    hide StatesC, HandlersC, PagesC, EntryC, ParseHandlers, PagesOk, CodeOk, StatesOk, Lawful, TablesOk;
    Taken(StatesC(m.format, m.constants), Entries(m),
          HandlersC(Base(m)).put(m.handlers) + (PagesC(Shell(m)).put(m.pages) + EntryC().put(EntryOf(m))));
  }

  lemma {:induction false} StatesOkLocal(a: Module, b: Module)
    requires a.format == b.format && a.constants == b.constants && a.limits == b.limits
    requires a.stateIds == b.stateIds && a.initialState == b.initialState
    ensures StatesOk(a) <==> StatesOk(b)
  {
  }

  lemma {:induction false} EntriesBack(m: Module)
    requires StatesOk(m)
    ensures FieldIds(m.format, Entries(m)) == m.stateIds && FieldValues(Entries(m)) == m.initialState
    ensures EntriesOk(m.format, m.constants, Entries(m))
  {
  }

  lemma {:induction false} TablesPrinted(m: Module)
    requires TablesOk(m) && StatesOk(m) && PagesOk(m) && EntryOk(m) && CodeOk(m)
    ensures ParseTables(HeadOf(m), m.limits, EncodeFromTables(m)) == Some(m)
  {
    TextTableLawful();
    VersionsLawful(m.format, |m.capabilities|);
    TextTableAccepts(m.capabilities);
    VersionsAccepts(m.format, |m.capabilities|, m.capabilityVersions);
    TextTablesAccept(m);
    StatesPrinted(m);
    TablesOkLocal(m);
    var tables := (m.domains, (m.storageScopes, m.constants));
    var b3 := EncodeFromStates(m);
    var b2 := TablesC().put(tables) + b3;
    var b1 := VersionsC(m.format, |m.capabilities|).put(m.capabilityVersions) + b2;
    hide *;
    Taken(TextTable(), m.capabilities, b1);
    Taken(VersionsC(m.format, |m.capabilities|), m.capabilityVersions, b2);
    Taken(TablesC(), tables, b3);
    TablesStep(m, b1, b2, b3);
    TablesPrint(m);
  }

  lemma {:induction false} TablesStep(m: Module, b1: Bytes, b2: Bytes, b3: Bytes)
    requires TablesOk(m)
    requires TextTable().get(EncodeFromTables(m)) == Done(m.capabilities, b1)
    requires VersionsC(m.format, |m.capabilities|).get(b1) == Done(m.capabilityVersions, b2)
    requires TablesC().get(b2) == Done((m.domains, (m.storageScopes, m.constants)), b3)
    ensures ParseTables(HeadOf(m), m.limits, EncodeFromTables(m))
         == ParseStates(Base(m).(stateIds := [], initialState := []), b3)
  {
    TablesOkLocal(m);
    hide TextTable, VersionsC, TablesC, ParseStates, TablesOk, EncodeFromTables;
  }

  lemma {:induction false} TablesPrint(m: Module)
    ensures EncodeFromTables(m) == TextTable().put(m.capabilities)
      + (VersionsC(m.format, |m.capabilities|).put(m.capabilityVersions)
         + (TablesC().put((m.domains, (m.storageScopes, m.constants))) + EncodeFromStates(m)))
  {
    hide TextTable, VersionsC, TablesC, EncodeFromStates;
  }

  lemma {:induction false} TextTablesAccept(m: Module)
    requires TablesOk(m)
    ensures TablesC().ok((m.domains, (m.storageScopes, m.constants)))
  {
    TextTableAccepts(m.domains);
    TextTableAccepts(m.storageScopes);
    TextTableAccepts(m.constants);
    hide TextTable;
  }

  lemma {:induction false} TablesOkLocal(m: Module)
    ensures TablesOk(Base(m).(stateIds := [], initialState := [])) <==> TablesOk(m)
  {
  }

  // Parsing what was printed returns the module, for every format.
  lemma {:induction false} ParseOfPrint(m: Module)
    requires Valid(m)
    ensures Parse(Encode(m)) == Some(m)
  {
    HeadLawful();
    LimitsLawful(m.format);
    HeadAccepts(m);
    LimitsAccepts(m.format, m.limits);
    TablesPrinted(m);
    var b2 := EncodeFromTables(m);
    var b1 := LimitsC(m.format).put(m.limits) + b2;
    assert HeadOf(m).format == m.format;
    hide *;
    Taken(HeadC(), HeadOf(m), b1);
    Taken(LimitsC(m.format), m.limits, b2);
    HeadStep(m, b1, b2);
  }

  lemma {:induction false} HeadStep(m: Module, b1: Bytes, b2: Bytes)
    requires b1 == LimitsC(m.format).put(m.limits) + EncodeFromTables(m)
    requires HeadC().get(HeadC().put(HeadOf(m)) + b1) == Done(HeadOf(m), b1)
    requires LimitsC(m.format).get(b1) == Done(m.limits, b2)
    ensures Parse(Encode(m)) == ParseTables(HeadOf(m), m.limits, b2)
  {
    hide HeadC, LimitsC, ParseTables, EncodeFromTables;
    var b0 := HeadC().put(HeadOf(m)) + b1;
    assert Encode(m)[..4] == PVBC && Encode(m)[4..] == b0;
  }

  // -------- printing what was parsed --------

  lemma {:induction false} Read<T(!new)>(c: Codec<T>, b: Bytes)
    requires Lawful(c) && c.get(b).Done?
    ensures c.ok(c.get(b).value) && b == c.put(c.get(b).value) + c.get(b).rest
  {
  }

  // m extends the partial module p by the sections read from b.
  lemma {:induction false} EntryParsed(p: Module, b: Bytes)
    requires ParseEntry(p, b).Some?
    ensures var m := ParseEntry(p, b).value;
      && m == p.(entryPage := m.entryPage, entryHandler := m.entryHandler)
      && EntryOk(m) && CodeOk(m)
      && b == EntryC().put(EntryOf(m))
  {
    EntryLawful();
    hide EntryC, CodeOk, Lawful;
    Read(EntryC(), b);
    var e := EntryC().get(b).value;
    assert EntryOf(ParseEntry(p, b).value) == e;
    assert EntryC().put(e) + [] == EntryC().put(e);
  }

  lemma {:induction false} PagesParsed(p: Module, b: Bytes)
    requires ParsePages(p, b).Some? && p == Shell(p)
    ensures var m := ParsePages(p, b).value;
      && Shell(m) == p && PagesOk(m) && EntryOk(m) && CodeOk(m)
      && b == PagesC(p).put(m.pages) + EntryC().put(EntryOf(m))
  {
    PagesLawful(p);
    hide PagesC, ParseEntry, PagesOk, CodeOk, Lawful, EntryOk;
    Read(PagesC(p), b);
    var p' := p.(pages := PagesC(p).get(b).value);
    EntryParsed(p', PagesC(p).get(b).rest);
    PagesOkLocal(p', ParsePages(p, b).value);
  }

  lemma {:induction false} HandlersParsed(p: Module, b: Bytes)
    requires ParseHandlers(p, b).Some? && p == Base(p) && PoolOk(p.constants)
    ensures var m := ParseHandlers(p, b).value;
      && Base(m) == p && PagesOk(m) && EntryOk(m) && CodeOk(m)
      && b == HandlersC(p).put(m.handlers) + (PagesC(Shell(m)).put(m.pages) + EntryC().put(EntryOf(m)))
  {
    HandlersLawful(p);
    hide HandlersC, ParsePages, PagesOk, CodeOk, Lawful, EntryOk, PagesC, EntryC;
    Read(HandlersC(p), b);
    PagesParsed(p.(handlers := HandlersC(p).get(b).value), HandlersC(p).get(b).rest);
  }

  lemma {:induction false} StatesParsed(p: Module, b: Bytes)
    requires ParseStates(p, b).Some? && TablesOk(p)
    requires p == Base(p).(stateIds := [], initialState := [])
    ensures var m := ParseStates(p, b).value;
      && Base(m).(stateIds := [], initialState := []) == p
      && StatesOk(m) && PagesOk(m) && EntryOk(m) && CodeOk(m)
      && b == EncodeFromStates(m)
  {
    StatesLawful(p.format, p.constants);
    hide StatesC, ParseHandlers, PagesOk, CodeOk, Lawful, EntryOk, PagesC, EntryC, StatesOk, HandlersC;
    Read(StatesC(p.format, p.constants), b);
    var es := StatesC(p.format, p.constants).get(b).value;
    var p' := p.(stateIds := FieldIds(p.format, es), initialState := FieldValues(es));
    HandlersParsed(p', StatesC(p.format, p.constants).get(b).rest);
    var m := ParseStates(p, b).value;
    StatesAccepts(p.format, p.constants, es);
    EntriesAgain(m, es);
    StatesOkLocal(p', m);
  }

  lemma {:induction false} EntriesAgain(m: Module, es: seq<(u64, Value)>)
    requires EntriesOk(m.format, m.constants, es)
    requires m.stateIds == FieldIds(m.format, es) && m.initialState == FieldValues(es)
    ensures Entries(m) == es
  {
    forall i | 0 <= i < |es| ensures Entries(m)[i] == es[i] {
      assert es[i] == (es[i].0, es[i].1);
    }
  }

  lemma {:induction false} TablesParsed(h: Head, l: Limits, b: Bytes)
    requires ParseTables(h, l, b).Some?
    ensures var m := ParseTables(h, l, b).value;
      && HeadOf(m) == h && m.limits == l
      && TablesOk(m) && StatesOk(m) && PagesOk(m) && EntryOk(m) && CodeOk(m)
      && b == EncodeFromTables(m)
  {
    TextTableLawful();
    hide TextTable, TablesC, VersionsC, ParseStates, PagesOk, CodeOk, Lawful, EntryOk, StatesOk, TablesOk,
      EncodeFromStates;
    Read(TextTable(), b);
    var capabilities, b1 := TextTable().get(b).value, TextTable().get(b).rest;
    VersionsLawful(h.format, |capabilities|);
    Read(VersionsC(h.format, |capabilities|), b1);
    var versions, b2 := VersionsC(h.format, |capabilities|).get(b1).value, VersionsC(h.format, |capabilities|).get(b1).rest;
    Read(TablesC(), b2);
    var tables, b3 := TablesC().get(b2).value, TablesC().get(b2).rest;
    var p := Payload.Start(h, l).(capabilities := capabilities, capabilityVersions := versions,
                          domains := tables.0, storageScopes := tables.1.0, constants := tables.1.1);
    StatesParsed(p, b3);
    var m := ParseTables(h, l, b).value;
    assert p == Base(m).(stateIds := [], initialState := []);
    TablesOkLocal(m);
    assert tables == (m.domains, (m.storageScopes, m.constants));
  }

  lemma {:induction false} AcceptedReprints(b: Bytes)
    requires Parse(b).Some?
    ensures Valid(Parse(b).value) && Encode(Parse(b).value) == b
  {
    HeadLawful();
    hide HeadC, LimitsC, ParseTables, Lawful, PagesOk, CodeOk, EntryOk, StatesOk, TablesOk, EncodeFromTables,
      HeadOk, LimitsOk;
    var b0 := b[4..];
    Read(HeadC(), b0);
    var h, b1 := HeadC().get(b0).value, HeadC().get(b0).rest;
    LimitsLawful(h.format);
    Read(LimitsC(h.format), b1);
    var l, b2 := LimitsC(h.format).get(b1).value, LimitsC(h.format).get(b1).rest;
    TablesParsed(h, l, b2);
    var m := Parse(b).value;
    HeadAccepts(m);
    LimitsAccepts(m.format, m.limits);
    assert b == PVBC + b0;
  }

  // Every byte string is rejected, or parses to a valid module whose printing gives
  // the very same bytes.
  lemma {:induction false} PrintOfParse(b: Bytes)
    ensures Parse(b).Some? ==> Valid(Parse(b).value) && Encode(Parse(b).value) == b
  {
    hide *;
    if Parse(b).Some? {
      AcceptedReprints(b);
    }
  }

  // What load establishes, whatever bytes were given.
  lemma {:induction false} ParsedIsLoaded(b: Bytes, e: Expectation)
    ensures ParsePayload(b, e).Some? ==> Loaded(ParsePayload(b, e).value) && Meets(ParsePayload(b, e).value, e)
  {
    hide Parse, Valid, Loaded, Encode, Meets;
    PrintOfParse(b);
    if Parse(b).Some? {
      ValidIsLoaded(Parse(b).value);
    }
  }

  // -------- the formats are inhabited --------

  // One page with a single text, no handler, no state.
  function Smallest(format: u16): Module {
    var text := UiNode(1, 1, [PropertyExpression(1, [ConstantText(0)])], [], []);
    Module(format, RUNTIME_VERSION, 1, 1, 1, [97], [97], [97], [97], 1, 1, Limits(1, 1, 1, 1, if format < 2 then 64 else 1),
           [], [], [], [], [[104, 105]], [], [], [], [text], 0, None)
  }

  lemma {:induction false} LeafOk(m: Module, n: UiNode)
    requires n.id != 0 && n.events == [] && n.children == [] && |m.constants| > 0
    requires n.properties == [PropertyExpression(1, [ConstantText(0)])]
    ensures NodeOk(m, n) && Depth(n) == 1 && Ids(n) == [n.id]
  {
    assert Keys(n.properties) == [1] && EventsOf(n.events) == [];
    assert PropertyOk(m, n.properties[0]);
    assert LocalNodeOk(m, n);
  }

  lemma {:induction false} OnePageOk(m: Module, n: UiNode)
    requires m.pages == [n] && NodeOk(m, n) && Depth(n) == 1 && Ids(n) == [n.id] && m.limits.maxUiNodes >= 1
    ensures PagesOk(m)
  {
    hide NodeOk, Depth, Ids;
    assert IdsAll([n]) == Ids(n) + IdsAll([]) == [n.id];
  }

  lemma {:induction false} SmallestPages(format: u16)
    ensures PagesOk(Smallest(format))
  {
    var m := Smallest(format);
    hide PagesOk, NodeOk, Depth, Ids;
    LeafOk(m, m.pages[0]);
    OnePageOk(m, m.pages[0]);
  }

  // Every format has a payload that loads.
  lemma {:induction false} SmallestLoads(format: u16)
    requires 1 <= format <= 5
    ensures Valid(Smallest(format)) && Loaded(Smallest(format))
    ensures Parse(Encode(Smallest(format))) == Some(Smallest(format))
  {
    var m := Smallest(format);
    SmallestPages(format);
    SmallestTables(format);
    assert Valid(m) by {
      hide PagesOk, TablesOk, StatesOk;
    }
    hide *;
    ValidIsLoaded(m);
    ParseOfPrint(m);
  }

  lemma {:induction false} SmallestTables(format: u16)
    ensures TablesOk(Smallest(format)) && StatesOk(Smallest(format))
  {
  }
}

/** Compiler.build: from the application description to the bytes of a payload. */
module Builds {
  import opened Basics
  import opened ByteCodec
  import opened Codecs
  import opened Bytecode
  import opened Elements
  import opened HandlerVerifier
  import opened Format
  import opened Payload
  import opened PayloadRoundTrip
  import opened Loader
  import opened Writers
  import opened Templates
  import opened Dsl
  import Compiler

  // -------- the module a description compiles to --------

  function Capped(v: int): u32 {
    if 0 < v <= MAX_BUDGET then v else 0
  }

  // Formats before 2 carry no task budget.
  function LimitsOf(b: Budget, format: u16): Limits {
    Limits(Capped(b.instructions), Capped(b.stack), Capped(b.stateBytes), Capped(b.nodes),
           if format >= 2 then Capped(b.tasks) else 64)
  }

  predicate BudgetOk(b: Budget) {
    && 0 < b.instructions <= MAX_BUDGET && 0 < b.stack <= MAX_BUDGET && 0 < b.stateBytes <= MAX_BUDGET
    && 0 < b.nodes <= MAX_BUDGET && 0 < b.tasks <= MAX_BUDGET
  }

  function VersionsOf(s: Source): (r: seq<u16>)
    ensures |r| == |s.capabilities|
  {
    seq(|s.capabilities|, i requires 0 <= i < |s.capabilities| => s.capabilities[i].version)
  }

  function IdentitiesOf(s: Source): (r: seq<u64>)
    ensures |r| == |s.states|
  {
    seq(|s.states|, i requires 0 <= i < |s.states| => s.states[i].identity)
  }

  // Formats before 3 carry no capability versions, and before 4 no state identities.
  function ModuleOf(s: Source, format: u16, handlers: seq<Code>, pages: seq<UiNode>, entryPage: u16,
                    entryHandler: Option<u16>): Module
  {
    Module(format, s.minimumRuntime, s.release, s.profile, s.platform, s.moduleId, s.applicationId, s.tenant, s.channel,
           s.schema, s.keyVersion, LimitsOf(s.budget, format), TablesOf(s, format).capabilities,
           if format >= 3 then VersionsOf(s) else Ones(|s.capabilities|),
           s.domains, s.scopes, Pool(s), if format >= 4 then IdentitiesOf(s) else [], Initials(s), handlers, pages,
           entryPage, entryHandler)
  }

  predicate NameOk(name: Bytes) {
    0 < |name| <= 255
  }

  // What is checked before anything is compiled.
  ghost predicate PolicyOk(s: Source, format: u16) {
    && 1 <= format <= 5 && 1 <= s.profile <= 4 && 1 <= s.platform <= 4
    && NameOk(s.moduleId) && NameOk(s.applicationId) && NameOk(s.tenant) && NameOk(s.channel)
    && s.release > 0 && s.keyVersion > 0 && s.minimumRuntime <= RUNTIME_VERSION
    && Distinct(TablesOf(s, format).capabilities) && Distinct(s.domains) && Distinct(s.scopes)
    && (forall i :: 0 <= i < |s.capabilities| ==> s.capabilities[i].version > 0)
    && Distinct(IdentitiesOf(s)) && (forall i :: 0 <= i < |s.states| ==> s.states[i].identity != 0)
  }

  // What is checked before the payload is written.
  ghost predicate BuildOk(s: Source, format: u16, m: Module) {
    && format <= s.minimumRuntime && BudgetOk(s.budget)
    && |IdsAll(m.pages)| <= m.limits.maxUiNodes
    && |s.states| <= 4096 && |s.handlers| <= 4096
    && Named(TablesOf(s, format).pages, m.entryPage, s.entryPage)
    && (s.entryHandler.None? <==> m.entryHandler.None?)
    && (s.entryHandler.Some? ==> Named(TablesOf(s, format).handlers, m.entryHandler.value, s.entryHandler.value))
  }

  ghost predicate PagesMean(t: Tables, pool: seq<Bytes>, hash: Bytes -> u32, ss: seq<PageSpec>, ns: seq<UiNode>) {
    |ns| == |ss| && forall k :: 0 <= k < |ss| ==> NodeMeans(t, pool, hash, ss[k].root, ns[k])
  }

  // Tables and texts fit the counts they are written with.
  ghost predicate Written(m: Module) {
    && |m.capabilities| <= MAX_U16 && |m.domains| <= MAX_U16 && |m.storageScopes| <= MAX_U16 && |m.constants| <= MAX_U16
    && AllShort(m.capabilities) && AllShort(m.domains) && AllShort(m.storageScopes) && AllShort(m.constants)
    && |m.handlers| <= MAX_U16 && (forall h :: 0 <= h < |m.handlers| ==> |m.handlers[h]| <= MAX_U32)
    && |m.pages| <= MAX_U16 && (forall k :: 0 <= k < |m.pages| ==> Countable(m.pages[k]))
  }

  // m says what the description says, and every rule on descriptions is kept.
  ghost predicate Translated(s: Source, format: u16, hash: Bytes -> u32, m: Module) {
    var t := TablesOf(s, format);
    && Dictionaries(s) && PolicyOk(s, format)
    && m == ModuleOf(s, format, m.handlers, m.pages, m.entryPage, m.entryHandler)
    && Compiler.HandlersAcceptable(t, TypesOf(m.initialState), s.handlers)
    && Compiler.HandlersMean(t, m.constants, s.handlers, m.handlers)
    && PagesMean(t, m.constants, hash, s.pages, m.pages) && Distinct(IdsAll(m.pages))
    && BindingRule(s) && BuildOk(s, format, m)
  }

  // m is what the description compiles to.
  ghost predicate CompiledFrom(s: Source, format: u16, hash: Bytes -> u32, m: Module) {
    Translated(s, format, hash, m) && Written(m)
  }

  // The rules that a description must keep.
  ghost predicate Acceptable(s: Source, format: u16, hash: Bytes -> u32) {
    var t := TablesOf(s, format);
    && PolicyOk(s, format)
    && Compiler.HandlersAcceptable(t, TypesOf(Initials(s)), s.handlers)
    && (forall k :: 0 <= k < |s.pages| ==> NodeSourceOk(t, s.pages[k].root))
    && Distinct(SourceIdsAll(hash, Roots(s.pages)))
    && BindingRule(s)
    && format <= s.minimumRuntime && BudgetOk(s.budget)
    && |SourceIdsAll(hash, Roots(s.pages))| <= s.budget.nodes
    && |s.states| <= 4096 && |s.handlers| <= 4096
    && s.entryPage in t.pages
    && (s.entryHandler.Some? ==> s.entryHandler.value in t.handlers)
  }

  // Every list of the tree, and every template's list of pieces, fits its count.
  predicate SourceCountable(n: SourceNode)
    decreases n
  {
    && |n.properties| <= MAX_U16 && |n.events| <= MAX_U16 && |n.children| <= MAX_U16
    && (forall i | 0 <= i < |n.properties| :: |Pieces(n.properties[i].template)| <= MAX_U16)
    && forall i | 0 <= i < |n.children| :: SourceCountable(n.children[i])
  }

  // The description fits the fields of the format: its tables and its distinct strings
  // can be counted, each of its strings is short enough, and so is each list.
  predicate Writable(s: Source) {
    && |s.capabilities| <= MAX_U16 && |s.domains| <= MAX_U16 && |s.scopes| <= MAX_U16 && |Pool(s)| <= MAX_U16
    && (forall i | 0 <= i < |s.capabilities| :: Short(s.capabilities[i].name))
    && AllShort(s.domains) && AllShort(s.scopes) && AllShort(StringsOf(s))
    && (forall h | 0 <= h < |s.handlers| :: |Closed(s.handlers[h].body)| <= MAX_U32)
    && |s.pages| <= MAX_U16 && (forall k | 0 <= k < |s.pages| :: SourceCountable(s.pages[k].root))
  }

  // -------- what is written is determined by the description --------

  lemma {:induction false} CountableIff(t: Tables, pool: seq<Bytes>, hash: Bytes -> u32, s: SourceNode, n: UiNode)
    requires NodeMeans(t, pool, hash, s, n)
    ensures Countable(n) <==> SourceCountable(s)
    decreases s
  {
    hide Pieces;
    forall k | 0 <= k < |s.properties|
      ensures |n.properties[k].segments| == |Pieces(s.properties[k].template)|
    {
      assert TemplateMeans(t.states, pool, s.properties[k].template, n.properties[k].segments);
    }
    forall k | 0 <= k < |s.children| ensures Countable(n.children[k]) <==> SourceCountable(s.children[k]) {
      CountableIff(t, pool, hash, s.children[k], n.children[k]);
    }
  }

  lemma {:induction false} PoolFacts(s: Source)
    ensures Distinct(Pool(s)) && (AllShort(Pool(s)) <==> AllShort(StringsOf(s)))
    ensures Compiler.InPool(Pool(s), Initials(s))
  {
    InternedOnce([], StringsOf(s));
    hide InternAll;
    forall k | 0 <= k < |s.states| && s.states[k].initial.StringValue?
      ensures s.states[k].initial.s in StringsOf(s)
    {
      StateStringListed(s.states, k);
    }
    SameShort(Pool(s), StringsOf(s));
  }

  lemma {:induction false} SameShort(a: seq<Bytes>, b: seq<Bytes>)
    requires forall x :: x in a <==> x in b
    ensures AllShort(a) <==> AllShort(b)
  {
    assert AllShort(a) <==> forall x :: x in a ==> Short(x);
    assert AllShort(b) <==> forall x :: x in b ==> Short(x);
  }

  lemma {:induction false} StateStringListed(ss: seq<StateSpec>, k: nat)
    requires k < |ss| && ss[k].initial.StringValue?
    ensures ss[k].initial.s in StateStrings(ss)
  {
    if k == 0 {
    } else {
      StateStringListed(ss[1..], k - 1);
    }
  }

  // The parts of a translation can be written exactly when the description fits.
  lemma {:induction false} WrittenIff(s: Source, format: u16, hash: Bytes -> u32, m: Module)
    requires Translated(s, format, hash, m)
    ensures Written(m) <==> Writable(s)
  {
    var t := TablesOf(s, format);
    PoolFacts(s);
    hide Countable, SourceCountable, NodeMeans, Compiler.HandlersAcceptable, CodeMeans, BindingRule, Dictionaries, Distinct, PolicyOk,
      IdsAll, Compiler.InPool, StringsOf, Pool, Closed, AllShort, TablesOf;
    CapabilitiesShort(s, format);
    forall h | 0 <= h < |s.handlers| ensures |m.handlers[h]| == |Closed(s.handlers[h].body)| {
      CodeLength(t, m.constants, Closed(s.handlers[h].body), m.handlers[h]);
    }
    forall k | 0 <= k < |s.pages| ensures Countable(m.pages[k]) <==> SourceCountable(s.pages[k].root) {
      CountableIff(t, m.constants, hash, s.pages[k].root, m.pages[k]);
    }
  }

  lemma {:induction false} CapabilitiesShort(s: Source, format: u16)
    ensures AllShort(TablesOf(s, format).capabilities)
       <==> forall i :: 0 <= i < |s.capabilities| ==> Short(s.capabilities[i].name)
  {
    var names := TablesOf(s, format).capabilities;
    assert forall i :: 0 <= i < |s.capabilities| ==> names[i] == s.capabilities[i].name;
  }

  lemma {:induction false} CodeLength(t: Tables, pool: seq<Bytes>, body: seq<SourceInstruction>, code: Code)
    requires CodeMeans(t, pool, body, code)
    ensures |code| == |body|
  {
  }

  lemma {:induction false} NamedOnce(names: seq<Bytes>, i: nat, j: nat, name: Bytes)
    requires Distinct(names) && Named(names, i, name) && Named(names, j, name)
    ensures i == j
  {
  }

  // Tables in which every name has one index.
  ghost predicate TablesDistinct(t: Tables, pool: seq<Bytes>) {
    Distinct(t.states) && Distinct(t.handlers) && Distinct(t.pages) && Distinct(t.capabilities) && Distinct(pool)
  }

  lemma {:induction false} CodeUnique(t: Tables, pool: seq<Bytes>, body: seq<SourceInstruction>, a: Code, b: Code)
    requires TablesDistinct(t, pool) && CodeMeans(t, pool, body, a) && CodeMeans(t, pool, body, b)
    ensures a == b
  {
    hide Distinct;
    forall k | 0 <= k < |body| ensures a[k] == b[k] {
      assert InstructionMeans(t, pool, body[k], a[k]) && InstructionMeans(t, pool, body[k], b[k]);
      InstructionUnique(t, pool, body[k], a[k], b[k]);
    }
  }

  lemma {:induction false} InstructionUnique(t: Tables, pool: seq<Bytes>, s: SourceInstruction, a: Instruction,
      b: Instruction)
    requires TablesDistinct(t, pool) && InstructionMeans(t, pool, s, a) && InstructionMeans(t, pool, s, b)
    ensures a == b
  {
  }

  lemma {:induction false} NodeUnique(t: Tables, pool: seq<Bytes>, hash: Bytes -> u32, s: SourceNode, a: UiNode,
      b: UiNode)
    requires TablesDistinct(t, pool) && NodeMeans(t, pool, hash, s, a) && NodeMeans(t, pool, hash, s, b)
    ensures a == b
    decreases s
  {
    hide Distinct, TemplateMeans;
    forall k | 0 <= k < |s.properties| ensures a.properties[k] == b.properties[k] {
      TemplateUnique(t.states, pool, s.properties[k].template, a.properties[k].segments, b.properties[k].segments);
    }
    forall k | 0 <= k < |s.events| ensures a.events[k] == b.events[k] {
      NamedOnce(t.handlers, a.events[k].handler, b.events[k].handler, s.events[k].handler);
    }
    forall k | 0 <= k < |s.children| ensures a.children[k] == b.children[k] {
      NodeUnique(t, pool, hash, s.children[k], a.children[k], b.children[k]);
    }
    assert a.properties == b.properties && a.events == b.events && a.children == b.children;
  }

  lemma {:induction false} TemplateUnique(names: seq<Bytes>, pool: seq<Bytes>, template: Bytes, a: seq<Segment>,
      b: seq<Segment>)
    requires Distinct(names) && Distinct(pool)
    requires TemplateMeans(names, pool, template, a) && TemplateMeans(names, pool, template, b)
    ensures a == b
  {
    SegmentsUnique(names, pool, Pieces(template), a, b);
  }

  lemma {:induction false} TablesAreDistinct(s: Source, format: u16)
    requires Dictionaries(s) && PolicyOk(s, format)
    ensures TablesDistinct(TablesOf(s, format), Pool(s))
  {
    PoolFacts(s);
    var t, u := TablesOf(s, format), TablesOf(s, 1);
    assert t.states == u.states && t.handlers == u.handlers && t.pages == u.pages;
  }

  // A description has one translation: no index, split or order is left open.
  lemma {:induction false} TranslatedOnce(s: Source, format: u16, hash: Bytes -> u32, a: Module, b: Module)
    requires Translated(s, format, hash, a) && Translated(s, format, hash, b)
    ensures a == b
  {
    var t := TablesOf(s, format);
    TablesAreDistinct(s, format);
    hide Dictionaries, PolicyOk, Distinct, NodeMeans, BindingRule, Compiler.HandlersAcceptable, CodeMeans, IdsAll, Pool, Initials, Closed,
      TypesOf;
    forall h | 0 <= h < |s.handlers| ensures a.handlers[h] == b.handlers[h] {
      CodeUnique(t, a.constants, Closed(s.handlers[h].body), a.handlers[h], b.handlers[h]);
    }
    forall k | 0 <= k < |s.pages| ensures a.pages[k] == b.pages[k] {
      NodeUnique(t, a.constants, hash, s.pages[k].root, a.pages[k], b.pages[k]);
    }
    assert a.handlers == b.handlers && a.pages == b.pages;
    NamedOnce(t.pages, a.entryPage, b.entryPage, s.entryPage);
    if s.entryHandler.Some? {
      NamedOnce(t.handlers, a.entryHandler.value, b.entryHandler.value, s.entryHandler.value);
    }
  }

  // -------- writing the sections --------

  lemma {:induction false} BothPut<A, B>(c: Codec<A>, d: Codec<B>, x: A, y: B)
    ensures Both(c, d).put((x, y)) == c.put(x) + d.put(y)
  {
  }

  lemma {:induction false} Append(a: Bytes, b: Bytes, c: Bytes)
    ensures (a + b) + c == a + (b + c)
  {
  }

  method WriteNumbers(w: Writer, m: Module)
    modifies w
    ensures w.data == old(w.data) + NumbersC().put(HeadTo(HeadOf(m)).0)
  {
    NumbersPut(m);
    hide Put16, Put64, NumbersC;
    w.U16(m.format);
    w.U16(m.minimumRuntime);
    w.U64(m.release);
    w.U8(m.profile);
    w.U8(m.platform);
  }

  lemma {:induction false} NumbersPut(m: Module)
    ensures NumbersC().put(HeadTo(HeadOf(m)).0)
      == Put16(m.format) + (Put16(m.minimumRuntime) + (Put64(m.release) + ([m.profile] + [m.platform])))
  {
    hide Put16, Put64, Both;
    var c1 := Both(U8C(), U8C());
    var c2 := Both(U64C(), c1);
    BothPut(U16C(), Both(U16C(), c2), m.format, (m.minimumRuntime, (m.release, (m.profile, m.platform))));
    BothPut(U16C(), c2, m.minimumRuntime, (m.release, (m.profile, m.platform)));
    BothPut(U64C(), c1, m.release, (m.profile, m.platform));
    BothPut(U8C(), U8C(), m.profile, m.platform);
  }

  method WriteNames(w: Writer, m: Module) returns (ok: bool)
    modifies w
    ensures ok <==> HeadTextsOk(m)
    ensures ok ==> w.data == old(w.data) + NamesC().put(HeadTo(HeadOf(m)).1)
  {
    NamesPut(m);
    hide Put32, Put64, PutText, NamesC;
    var id := w.Text(m.moduleId);
    if !id {
      return false;
    }
    var application := w.Text(m.applicationId);
    if !application {
      return false;
    }
    var tenant := w.Text(m.tenant);
    if !tenant {
      return false;
    }
    var channel := w.Text(m.channel);
    if !channel {
      return false;
    }
    w.U64(m.stateSchema);
    w.U32(m.keyVersion);
    ok := true;
  }

  lemma {:induction false} NamesPut(m: Module)
    ensures NamesC().put(HeadTo(HeadOf(m)).1)
      == PutText(m.moduleId) + (PutText(m.applicationId) + (PutText(m.tenant)
         + (PutText(m.channel) + (Put64(m.stateSchema) + Put32(m.keyVersion)))))
  {
    hide Put32, Put64, PutText, Both;
    var c1 := Both(U64C(), U32C());
    var c2 := Both(TextC(), c1);
    var c3 := Both(TextC(), c2);
    var last := (m.stateSchema, m.keyVersion);
    BothPut(TextC(), Both(TextC(), c3), m.moduleId, (m.applicationId, (m.tenant, (m.channel, last))));
    BothPut(TextC(), c3, m.applicationId, (m.tenant, (m.channel, last)));
    BothPut(TextC(), c2, m.tenant, (m.channel, last));
    BothPut(TextC(), c1, m.channel, last);
    BothPut(U64C(), U32C(), m.stateSchema, m.keyVersion);
  }

  method WriteHead(w: Writer, m: Module) returns (ok: bool)
    modifies w
    ensures ok <==> HeadTextsOk(m)
    ensures ok ==> w.data == old(w.data) + HeadC().put(HeadOf(m))
  {
    HeadPut(m);
    hide NumbersC, NamesC, HeadTo, HeadC;
    WriteNumbers(w, m);
    ok := WriteNames(w, m);
  }

  lemma {:induction false} HeadPut(m: Module)
    ensures HeadC().put(HeadOf(m)) == NumbersC().put(HeadTo(HeadOf(m)).0) + NamesC().put(HeadTo(HeadOf(m)).1)
  {
    hide NumbersC, NamesC, HeadTo;
    var x := HeadTo(HeadOf(m));
    assert x == (x.0, x.1);
  }

  method WriteLimits(w: Writer, format: u16, l: Limits)
    modifies w
    ensures w.data == old(w.data) + LimitsC(format).put(l)
  {
    LimitsPut(format, l);
    hide Put32, LimitsC;
    w.U32(l.maxInstructions);
    w.U32(l.maxStack);
    w.U32(l.maxStateBytes);
    w.U32(l.maxUiNodes);
    if format >= 2 {
      w.U32(l.maxTasks);
    }
  }

  lemma {:induction false} LimitsPut(format: u16, l: Limits)
    ensures LimitsC(format).put(l)
      == Put32(l.maxInstructions) + (Put32(l.maxStack) + (Put32(l.maxStateBytes)
         + (Put32(l.maxUiNodes) + (if format >= 2 then Put32(l.maxTasks) else []))))
  {
    hide Put32, Both;
    var c0 := TasksC(format);
    var c1 := Both(U32C(), c0);
    var c2 := Both(U32C(), c1);
    BothPut(U32C(), Both(U32C(), c2), l.maxInstructions, (l.maxStack, (l.maxStateBytes, (l.maxUiNodes, l.maxTasks))));
    BothPut(U32C(), c2, l.maxStack, (l.maxStateBytes, (l.maxUiNodes, l.maxTasks)));
    BothPut(U32C(), c1, l.maxStateBytes, (l.maxUiNodes, l.maxTasks));
    BothPut(U32C(), c0, l.maxUiNodes, l.maxTasks);
  }

  method WriteVersions(w: Writer, format: u16, versions: seq<u16>)
    modifies w
    ensures w.data == old(w.data) + VersionsC(format, |versions|).put(versions)
  {
    hide Put16;
    if format >= 3 {
      for i := 0 to |versions|
        invariant w.data == old(w.data) + PutAll(U16C(), versions[..i])
      {
        w.U16(versions[i]);
        PutAllSnoc(U16C(), versions, i);
      }
      assert versions[..|versions|] == versions;
    }
  }

  // One row of the state table.
  method WriteField(w: Writer, m: Module, ids: map<Bytes, u16>, i: nat)
    requires IdsOf(m.constants, ids) && Compiler.InPool(m.constants, m.initialState)
    requires i < |m.initialState| && (m.format >= 4 ==> |m.stateIds| == |m.initialState|)
    modifies w
    ensures w.data == old(w.data) + FieldC(m).put(Entries(m)[i])
  {
    FieldPut(m, i);
    assert m.initialState[i].StringValue? ==> m.initialState[i].s in m.constants;
    hide *;
    if m.format >= 4 {
      w.U64(m.stateIds[i]);
    }
    w.Typed(m.constants, ids, m.initialState[i]);
  }

  lemma {:induction false} FieldPut(m: Module, i: nat)
    requires i < |m.initialState| && (m.format >= 4 ==> |m.stateIds| == |m.initialState|)
    ensures FieldC(m).put(Entries(m)[i])
      == (if m.format >= 4 then Put64(m.stateIds[i]) else []) + PutTyped(m.constants, m.initialState[i])
  {
    hide Put64, PutTyped, Both;
    BothPut(StateIdC(m.format), TypedC(m.constants), Entries(m)[i].0, Entries(m)[i].1);
    assert Entries(m)[i] == (Entries(m)[i].0, Entries(m)[i].1);
  }

  method WriteStates(w: Writer, m: Module, ids: map<Bytes, u16>)
    requires IdsOf(m.constants, ids) && Compiler.InPool(m.constants, m.initialState)
    requires |m.initialState| <= MAX_U16 && (m.format >= 4 ==> |m.stateIds| == |m.initialState|)
    modifies w
    ensures w.data == old(w.data) + StatesC(m.format, m.constants).put(Entries(m))
  {
    StatesPut(m);
    WriteFields(w, m, ids);
  }

  method WriteFields(w: Writer, m: Module, ids: map<Bytes, u16>)
    requires IdsOf(m.constants, ids) && Compiler.InPool(m.constants, m.initialState)
    requires |m.initialState| <= MAX_U16 && (m.format >= 4 ==> |m.stateIds| == |m.initialState|)
    modifies w
    ensures w.data == old(w.data) + (Put16(|m.initialState|) + PutAll(FieldC(m), Entries(m)))
  {
    ghost var es, c := Entries(m), FieldC(m);
    assert PutAll(c, es[..0]) == [];
    hide *;
    w.U16(|m.initialState|);
    ghost var start := w.data;
    for i := 0 to |m.initialState|
      invariant w.data == start + PutAll(c, es[..i])
    {
      WriteField(w, m, ids, i);
      PutAllSnoc(c, es, i);
      Append(start, PutAll(c, es[..i]), c.put(es[i]));
    }
    assert es[..|m.initialState|] == es;
    Append(old(w.data), Put16(|m.initialState|), PutAll(c, es));
  }

  lemma {:induction false} StatesPut(m: Module)
    requires |m.initialState| <= MAX_U16
    ensures StatesC(m.format, m.constants).put(Entries(m))
      == Put16(|m.initialState|) + PutAll(FieldC(m), Entries(m))
  {
    hide Put16, PutAll, Counted;
    CountedPut(FieldC(m), Entries(m));
  }

  method WritePages(w: Writer, m: Module) returns (ok: bool)
    modifies w
    ensures ok <==> |m.pages| <= MAX_U16 && forall k :: 0 <= k < |m.pages| ==> Countable(m.pages[k])
    ensures ok ==> w.data == old(w.data) + PagesC(Shell(m)).put(m.pages)
  {
    PagesPut(Shell(m), m.pages);
    hide Put16, PutNodes, Countable, PagesC, Shell;
    if |m.pages| > MAX_U16 {
      return false;
    }
    w.U16(|m.pages|);
    ok := w.WriteNodes(Shell(m), m.pages);
  }

  lemma {:induction false} PagesPut(m: Module, ns: seq<UiNode>)
    ensures |ns| <= MAX_U16 ==> PagesC(m).put(ns) == Put16(|ns|) + PutNodes(m, ns)
  {
    hide Put16, PutNodes;
  }

  method WriteTables(w: Writer, m: Module) returns (ok: bool)
    requires |m.capabilityVersions| == |m.capabilities|
    modifies w
    ensures ok <==>
      && |m.capabilities| <= MAX_U16 && |m.domains| <= MAX_U16 && |m.storageScopes| <= MAX_U16 && |m.constants| <= MAX_U16
      && AllShort(m.capabilities) && AllShort(m.domains) && AllShort(m.storageScopes) && AllShort(m.constants)
    ensures ok ==>
      w.data == old(w.data) + (TextTable().put(m.capabilities)
        + (VersionsC(m.format, |m.capabilities|).put(m.capabilityVersions)
           + TablesC().put((m.domains, (m.storageScopes, m.constants)))))
  {
    TablesPut(m);
    hide TextTable, VersionsC, TablesC, AllShort;
    var capabilities := w.TextList(m.capabilities);
    if !capabilities {
      return false;
    }
    WriteVersions(w, m.format, m.capabilityVersions);
    var domains := w.TextList(m.domains);
    if !domains {
      return false;
    }
    var scopes := w.TextList(m.storageScopes);
    if !scopes {
      return false;
    }
    ok := w.TextList(m.constants);
  }

  lemma {:induction false} TablesPut(m: Module)
    ensures TablesC().put((m.domains, (m.storageScopes, m.constants)))
      == TextTable().put(m.domains) + (TextTable().put(m.storageScopes) + TextTable().put(m.constants))
  {
    hide TextTable, Both;
    BothPut(TextTable(), Both(TextTable(), TextTable()), m.domains, (m.storageScopes, m.constants));
    BothPut(TextTable(), TextTable(), m.storageScopes, m.constants);
  }

  method WritePayload(m: Module, ids: map<Bytes, u16>) returns (r: Option<Bytes>)
    requires IdsOf(m.constants, ids) && Compiler.InPool(m.constants, m.initialState) && HeadTextsOk(m)
    requires |m.capabilityVersions| == |m.capabilities|
    requires |m.initialState| <= MAX_U16 && (m.format >= 4 ==> |m.stateIds| == |m.initialState|)
    requires forall h :: 0 <= h < |m.handlers| ==> Operands(m, m.handlers[h])
    requires m.entryHandler.Some? ==> m.entryHandler.value != MAX_U16
    ensures r.Some? <==> Written(m)
    ensures r.Some? ==> r.value == Encode(m)
  {
    hide HeadC, LimitsC, TextTable, VersionsC, TablesC, StatesC, HandlersC, PagesC, IdsOf, AllShort, HeadTextsOk,
      Countable, Operands, EntryC;
    var w := new Writer();
    w.data := PVBC;
    var head := WriteHead(w, m);
    WriteLimits(w, m.format, m.limits);
    var tables := WriteTables(w, m);
    if !tables {
      return None;
    }
    WriteStates(w, m, ids);
    BaseOperands(m);
    var handlers := w.WriteHandlers(Base(m), ids, m.handlers);
    if !handlers {
      return None;
    }
    var pages := WritePages(w, m);
    if !pages {
      return None;
    }
    WriteEntry(w, m);
    EncodeFlat(m);
    r := Some(w.data);
  }

  lemma {:induction false} EncodeFlat(m: Module)
    ensures Encode(m) ==
      PVBC + HeadC().put(HeadOf(m)) + LimitsC(m.format).put(m.limits)
      + (TextTable().put(m.capabilities)
         + (VersionsC(m.format, |m.capabilities|).put(m.capabilityVersions)
            + TablesC().put((m.domains, (m.storageScopes, m.constants)))))
      + StatesC(m.format, m.constants).put(Entries(m)) + HandlersC(Base(m)).put(m.handlers)
      + PagesC(Shell(m)).put(m.pages) + EntryC().put(EntryOf(m))
  {
    hide HeadC, LimitsC, TextTable, VersionsC, TablesC, StatesC, HandlersC, PagesC, EntryC;
    var tables := TextTable().put(m.capabilities)
      + (VersionsC(m.format, |m.capabilities|).put(m.capabilityVersions)
         + TablesC().put((m.domains, (m.storageScopes, m.constants))));
    var rest := EncodeFromStates(m);
    assert EncodeFromTables(m) == tables + rest;
  }

  lemma {:induction false} BaseOperands(m: Module)
    requires forall h :: 0 <= h < |m.handlers| ==> Operands(m, m.handlers[h])
    ensures forall h, k :: 0 <= h < |m.handlers| && 0 <= k < |m.handlers[h]| ==> OperandsOk(Base(m), m.handlers[h][k])
  {
    forall h, k | 0 <= h < |m.handlers| && 0 <= k < |m.handlers[h]| ensures OperandsOk(Base(m), m.handlers[h][k]) {
      OperandsLocal(m, Base(m), m.handlers[h]);
    }
  }

  method WriteEntry(w: Writer, m: Module)
    modifies w
    ensures w.data == old(w.data) + EntryC().put(EntryOf(m))
  {
    hide Put16;
    w.U16(m.entryPage);
    w.U16(if m.entryHandler.None? then 0xFFFF else m.entryHandler.value);
  }

  // -------- the whole build --------

  method CheckPolicy(s: Source, format: u16) returns (ok: bool)
    ensures ok <==> PolicyOk(s, format)
  {
    hide Distinct;
    var capabilities := Unique(TablesOf(s, format).capabilities);
    var domains := Unique(s.domains);
    var scopes := Unique(s.scopes);
    var identities := Unique(IdentitiesOf(s));
    ok := 1 <= format <= 5 && 1 <= s.profile <= 4 && 1 <= s.platform <= 4
      && NameOk(s.moduleId) && NameOk(s.applicationId) && NameOk(s.tenant) && NameOk(s.channel)
      && s.release > 0 && s.keyVersion > 0 && s.minimumRuntime <= RUNTIME_VERSION
      && capabilities && domains && scopes && identities
      && (forall i | 0 <= i < |s.capabilities| :: s.capabilities[i].version > 0)
      && forall i | 0 <= i < |s.states| :: s.states[i].identity != 0;
  }

  // The operands the compiler chose are good in the finished module.
  lemma {:induction false} BuiltOperands(t: Tables, m: Module, hs: seq<HandlerSpec>)
    requires Compiler.HandlersMean(t, m.constants, hs, m.handlers)
    requires m.format == t.format && m.capabilities == t.capabilities && |m.initialState| == |t.states|
    ensures forall h :: 0 <= h < |m.handlers| ==> Operands(m, m.handlers[h])
  {
    hide CodeMeans, Operands;
    forall h | 0 <= h < |m.handlers| ensures Operands(m, m.handlers[h]) {
      Compiler.CodeOperands(t, m, Closed(hs[h].body), m.handlers[h]);
    }
  }

  datatype Parts = Parts(initial: seq<Value>, handlers: seq<Code>, pages: seq<UiNode>)

  // The compiled parts under the finished pool.
  ghost predicate PartsMean(s: Source, format: u16, hash: Bytes -> u32, p: Parts) {
    var t := TablesOf(s, format);
    && p.initial == Initials(s)
    && Compiler.HandlersAcceptable(t, TypesOf(p.initial), s.handlers)
    && Compiler.HandlersMean(t, Pool(s), s.handlers, p.handlers)
    && PagesMean(t, Pool(s), hash, s.pages, p.pages) && Distinct(IdsAll(p.pages))
    && BindingRule(s)
  }

  // What CompileParts demands of a description.
  ghost predicate PartsAcceptable(s: Source, format: u16, hash: Bytes -> u32) {
    var t := TablesOf(s, format);
    && Compiler.HandlersAcceptable(t, TypesOf(Initials(s)), s.handlers)
    && (forall k :: 0 <= k < |s.pages| ==> NodeSourceOk(t, s.pages[k].root))
    && Distinct(SourceIdsAll(hash, Roots(s.pages)))
    && BindingRule(s)
  }

  // States, handlers and pages, in this order, and the rule on event values.
  method CompileParts(c: Compiler.Compiler) returns (r: Option<Parts>)
    requires c.Valid() && c.constants == [] && c.nodeIds == {} && c.nodeCount == 0 && c.eventValueHandlers == {}
    requires Distinct(c.T().states)
    modifies c
    ensures c.Valid()
    ensures r.Some? ==> PartsMean(c.source, c.format, c.hash, r.value) && c.constants == Pool(c.source)
    ensures r.Some? ==> PartsAcceptable(c.source, c.format, c.hash)
    ensures r.Some? ==> IdsAll(r.value.pages) == SourceIdsAll(c.hash, Roots(c.source.pages))
    ensures r.Some? ==> c.nodeCount == |IdsAll(r.value.pages)|
    ensures r.None? ==>
      !PartsAcceptable(c.source, c.format, c.hash) || |Pool(c.source)| > MAX_U16 || !Indexable(c.T())
  {
    hide BindingRule, NodeMeans, IdsOf, Compiler.HandlersMean, Compiler.InPool, Compiler.HandlersAcceptable,
      NodeSourceOk, Indexable, InternAll, StateStrings, HandlerStrings, NodeStringsAll, Pool;
    PoolSteps(c.source);
    var states := c.States();
    if states.None? {
      return None;
    }
    var initial := states.value;
    ghost var pool1 := c.constants;
    var handlers := c.Handlers(initial);
    if handlers.None? {
      return None;
    }
    ghost var pool2 := c.constants;
    ghost var roots := Roots(c.source.pages);
    var pages := c.Nodes(Roots(c.source.pages));
    if pages.None? {
      return None;
    }
    var bound := c.ValidateEventValueBindings();
    if !bound {
      return None;
    }
    HandlersGrew(c.T(), pool2, c.constants, c.source.handlers, handlers.value);
    assert forall k :: 0 <= k < |c.source.pages| ==> roots[k] == c.source.pages[k].root;
    CompiledIdsAll(c.T(), c.constants, c.hash, roots, pages.value);
    r := Some(Parts(initial, handlers.value, pages.value));
  }

  // The pool grows through states, handlers and pages.
  lemma {:induction false} PoolSteps(s: Source)
    ensures var pool1 := InternAll([], StateStrings(s.states));
      var pool2 := InternAll(pool1, HandlerStrings(s.handlers));
      && Pool(s) == InternAll(pool2, NodeStringsAll(Roots(s.pages)))
      && |pool1| <= |pool2| <= |Pool(s)|
  {
    var a, b, c := StateStrings(s.states), HandlerStrings(s.handlers), NodeStringsAll(Roots(s.pages));
    InternConcat([], a + b, c);
    InternConcat([], a, b);
    assert InternAll([], a) <= InternAll(InternAll([], a), b);
    assert InternAll([], a + b) <= InternAll(InternAll([], a + b), c);
  }

  lemma {:induction false} HandlersGrew(t: Tables, before: seq<Bytes>, pool: seq<Bytes>, hs: seq<HandlerSpec>,
      codes: seq<Code>)
    requires before <= pool && Compiler.HandlersMean(t, before, hs, codes)
    ensures Compiler.HandlersMean(t, pool, hs, codes)
  {
    hide CodeMeans;
    forall h | 0 <= h < |hs| ensures CodeMeans(t, pool, Closed(hs[h].body), codes[h]) {
      CodeStays(t, before, pool, Closed(hs[h].body), codes[h]);
    }
  }

  // Compiles a description: into the bytes of its one translation when it keeps the rules
  // and fits the format, and into nothing otherwise.
  method Build(s: Source, format: u16, hash: Bytes -> u32) returns (r: Option<Bytes>)
    requires Dictionaries(s)
    ensures r.Some? <==> Acceptable(s, format, hash) && Writable(s)
    ensures r.Some? ==> exists m: Module :: CompiledFrom(s, format, hash, m) && r.value == Encode(m)
  {
    hide Dictionaries, PartsMean, PolicyOk, Encode, IdsOf, IdsAll, Written, Operands, ModuleOf, PartsAcceptable,
      Translated, SourceIdsAll, Writable, Pool;
    AcceptableParts(s, format, hash);
    WritableCounts(s, format);
    StateNames(s, format);
    var allowed := CheckPolicy(s, format);
    if !allowed {
      return None;
    }
    var c := new Compiler.Compiler(s, format, hash);
    var parts := CompileParts(c);
    if parts.None? {
      return None;
    }
    var p := parts.value;
    if s.minimumRuntime < format || !BudgetOk(s.budget) || c.nodeCount > s.budget.nodes
       || |s.states| > 4096 || |s.handlers| > 4096
    {
      return None;
    }
    var entryPage := c.Resolve(c.T().pages, s.entryPage);
    if entryPage.None? {
      return None;
    }
    var entryHandler: Option<u16> := None;
    if s.entryHandler.Some? {
      entryHandler := c.Resolve(c.T().handlers, s.entryHandler.value);
      if entryHandler.None? {
        return None;
      }
    }
    var m := ModuleOf(s, format, p.handlers, p.pages, entryPage.value, entryHandler);
    BuiltModule(s, format, hash, p, entryPage.value, entryHandler, m);
    WrittenIff(s, format, hash, m);
    r := WritePayload(m, c.ids);
    if r.Some? {
      assert CompiledFrom(s, format, hash, m);
    }
  }

  lemma {:induction false} StateNames(s: Source, format: u16)
    requires Dictionaries(s)
    ensures Distinct(TablesOf(s, format).states)
  {
    assert TablesOf(s, format).states == TablesOf(s, 1).states;
  }

  // Everything Acceptable says, read as the conditions the steps test.
  lemma {:induction false} AcceptableParts(s: Source, format: u16, hash: Bytes -> u32)
    ensures var t := TablesOf(s, format);
      Acceptable(s, format, hash) <==>
        && PolicyOk(s, format) && PartsAcceptable(s, format, hash)
        && format <= s.minimumRuntime && BudgetOk(s.budget)
        && |SourceIdsAll(hash, Roots(s.pages))| <= s.budget.nodes
        && |s.states| <= 4096 && |s.handlers| <= 4096
        && s.entryPage in t.pages
        && (s.entryHandler.Some? ==> s.entryHandler.value in t.handlers)
  {
    hide PolicyOk, Compiler.HandlersAcceptable, NodeSourceOk, Distinct, SourceIdsAll, BindingRule;
  }

  lemma {:induction false} WritableCounts(s: Source, format: u16)
    ensures Writable(s) ==> |Pool(s)| <= MAX_U16
    ensures Writable(s) && |s.states| <= 4096 && |s.handlers| <= 4096 ==> Indexable(TablesOf(s, format))
  {
  }

  lemma {:induction false} BuiltModule(s: Source, format: u16, hash: Bytes -> u32, p: Parts, entryPage: u16,
                                       entryHandler: Option<u16>, m: Module)
    requires Dictionaries(s) && PolicyOk(s, format) && PartsMean(s, format, hash, p)
    requires m == ModuleOf(s, format, p.handlers, p.pages, entryPage, entryHandler)
    requires format <= s.minimumRuntime && BudgetOk(s.budget) && |IdsAll(p.pages)| <= s.budget.nodes
    requires |s.states| <= 4096 && |s.handlers| <= 4096
    requires Named(TablesOf(s, format).pages, entryPage, s.entryPage)
    requires s.entryHandler.None? <==> entryHandler.None?
    requires s.entryHandler.Some? ==> Named(TablesOf(s, format).handlers, entryHandler.value, s.entryHandler.value)
    ensures m.constants == Pool(s) && Compiler.InPool(m.constants, m.initialState) && HeadTextsOk(m)
    ensures |m.capabilityVersions| == |m.capabilities| && |m.initialState| <= 4096
    ensures (m.format >= 4 ==> |m.stateIds| == |m.initialState|)
    ensures forall h :: 0 <= h < |m.handlers| ==> Operands(m, m.handlers[h])
    ensures m.entryHandler.Some? ==> m.entryHandler.value != MAX_U16
    ensures Translated(s, format, hash, m)
  {
    PoolFacts(s);
    hide Dictionaries, BindingRule, Operands, Compiler.HandlersMean, Compiler.HandlersAcceptable, Compiler.InPool,
      IdsAll, Distinct,
      PagesMean, Written, Pool;
    BuiltOperands(TablesOf(s, format), m, s.handlers);
  }

  // One page of one node.
  function SmallestSource(): Source {
    Source(5, 1, 1, 1, [97], [97], [97], [97], 1, 1, Budget(1, 1, 1, 1, 1), [], [], [], [], [],
           [PageSpec([112], SourceNode(1, [110], [], [], []))], [112], None)
  }

  lemma {:induction false} SmallestPolicy(format: u16)
    requires 1 <= format <= 5
    ensures var s := SmallestSource(); Dictionaries(s) && PolicyOk(s, format) && BindingRule(s)
  {
  }

  lemma {:induction false} SmallestIds(hash: Bytes -> u32)
    ensures var ids := SourceIdsAll(hash, Roots(SmallestSource().pages)); |ids| == 1 && Distinct(ids)
  {
    var s := SmallestSource();
    var root := s.pages[0].root;
    assert SourceIds(hash, root) == [hash(root.id)] + SourceIdsAll(hash, []);
    assert Roots(s.pages) == [root] && Roots(s.pages)[1..] == [];
  }

  lemma {:induction false} SmallestWritable()
    ensures Writable(SmallestSource())
  {
    var s := SmallestSource();
    var root := s.pages[0].root;
    assert Roots(s.pages) == [root] && [root][1..] == [];
    assert NodeStringsAll([root]) == NodeStrings(root) + NodeStringsAll([]);
    assert StringsOf(s) == [];
  }

  lemma {:induction false} SmallestNamed(format: u16)
    ensures var s, t := SmallestSource(), TablesOf(SmallestSource(), format);
      && s.entryPage in t.pages
      && Compiler.HandlersAcceptable(t, TypesOf(Initials(s)), s.handlers)
      && forall k :: 0 <= k < |s.pages| ==> NodeSourceOk(t, s.pages[k].root)
  {
    assert TablesOf(SmallestSource(), format).pages == [[112]];
  }

  // Every format has a description that builds.
  lemma {:induction false} SmallestBuilds(format: u16, hash: Bytes -> u32)
    requires 1 <= format <= 5
    ensures var s := SmallestSource(); Dictionaries(s) && Acceptable(s, format, hash) && Writable(s)
  {
    SmallestPolicy(format);
    SmallestIds(hash);
    SmallestWritable();
    SmallestNamed(format);
    hide Dictionaries, PolicyOk, BindingRule, Distinct, SourceIdsAll, Roots, Writable, TablesOf, NodeSourceOk, Initials,
      Compiler.HandlersAcceptable;
  }
}

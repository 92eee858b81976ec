/** parse_payload: the module filled section by section from one reader, with every
    check where the loader makes it, proved to be exactly the parsing function. */
module Loader {
  import opened Basics
  import opened ByteCodec
  import opened Codecs
  import opened Bytecode
  import opened Elements
  import opened HandlerVerifier
  import opened Format
  import opened Payload
  import opened PayloadRoundTrip
  import opened PayloadReader
  import opened NodeReader

  // -------- the head --------

  lemma {:induction false} BothGet<A, B>(c: Codec<A>, d: Codec<B>, b: Bytes)
    ensures Both(c, d).get(b) ==
      match c.get(b)
      case Fail => Fail
      case Done(x, rest) => match d.get(rest) case Fail => Fail case Done(y, r) => Done((x, y), r)
  {
  }

  function GetNames(b: Bytes): Parsed<Names> {
    match GetText(b)
    case Fail => Fail
    case Done(id, b1) =>
      match GetText(b1)
      case Fail => Fail
      case Done(application, b2) =>
        match GetText(b2)
        case Fail => Fail
        case Done(tenant, b3) =>
          match GetText(b3)
          case Fail => Fail
          case Done(channel, b4) =>
            match Get64(b4)
            case Fail => Fail
            case Done(schema, b5) =>
              match Get32(b5)
              case Fail => Fail
              case Done(key, b6) => Done((id, (application, (tenant, (channel, (schema, key))))), b6)
  }

  lemma {:induction false} NamesGet(b: Bytes)
    ensures NamesC().get(b) == GetNames(b)
  {
    hide Both, GetText, Get64, Get32;
    var c1 := Both(U64C(), U32C());
    var c2 := Both(TextC(), c1);
    var c3 := Both(TextC(), c2);
    var c4 := Both(TextC(), c3);
    BothGet(TextC(), c4, b);
    var b1 := if GetText(b).Done? then GetText(b).rest else [];
    BothGet(TextC(), c3, b1);
    var b2 := if GetText(b1).Done? then GetText(b1).rest else [];
    BothGet(TextC(), c2, b2);
    var b3 := if GetText(b2).Done? then GetText(b2).rest else [];
    BothGet(TextC(), c1, b3);
    var b4 := if GetText(b3).Done? then GetText(b3).rest else [];
    BothGet(U64C(), U32C(), b4);
  }

  method ReadNames(reader: Reader) returns (r: Option<Names>)
    requires reader.Valid()
    modifies reader
    ensures reader.Valid() && Took(r, NamesC().get(old(reader.Rest())), reader.Rest())
  {
    NamesGet(reader.Rest());
    hide GetText, Get64, Get32, NamesC;
    var id := reader.Text();
    if id.None? {
      return None;
    }
    var application := reader.Text();
    if application.None? {
      return None;
    }
    var tenant := reader.Text();
    if tenant.None? {
      return None;
    }
    var channel := reader.Text();
    if channel.None? {
      return None;
    }
    var schema := reader.U64();
    if schema.None? {
      return None;
    }
    var key := reader.U32();
    if key.None? {
      return None;
    }
    r := Some((id.value, (application.value, (tenant.value, (channel.value, (schema.value, key.value))))));
  }

  function GetNumbers(b: Bytes): Parsed<Numbers> {
    match Get16(b)
    case Fail => Fail
    case Done(format, b1) =>
      match Get16(b1)
      case Fail => Fail
      case Done(runtime, b2) =>
        match Get64(b2)
        case Fail => Fail
        case Done(release, b3) =>
          match Get8(b3)
          case Fail => Fail
          case Done(profile, b4) =>
            match Get8(b4)
            case Fail => Fail
            case Done(platform, b5) => Done((format, (runtime, (release, (profile, platform)))), b5)
  }

  lemma {:induction false} NumbersGet(b: Bytes)
    ensures NumbersC().get(b) == GetNumbers(b)
  {
    hide Both, Get16, Get64, Get8;
    var c1 := Both(U8C(), U8C());
    var c2 := Both(U64C(), c1);
    var c3 := Both(U16C(), c2);
    BothGet(U16C(), c3, b);
    var b1 := if Get16(b).Done? then Get16(b).rest else [];
    BothGet(U16C(), c2, b1);
    var b2 := if Get16(b1).Done? then Get16(b1).rest else [];
    BothGet(U64C(), c1, b2);
    var b3 := if Get64(b2).Done? then Get64(b2).rest else [];
    BothGet(U8C(), U8C(), b3);
  }

  lemma {:induction false} HeadGet(b: Bytes)
    ensures HeadC().get(b) ==
      match GetNumbers(b)
      case Fail => Fail
      case Done(x, rest) =>
        match NamesC().get(rest)
        case Fail => Fail
        case Done(y, r) => if HeadOk(HeadFrom((x, y))) then Done(HeadFrom((x, y)), r) else Fail
  {
    NumbersGet(b);
    hide NumbersC, GetNumbers, NamesC, HeadOk, HeadFrom, HeadTo;
  }

  predicate HeadMeets(h: Head, e: Expectation) {
    && h.applicationId == e.application
    && (e.channel != [] ==> h.channel == e.channel)
    && (e.platform.Some? ==> h.platform == e.platform.value)
    && (e.profile.Some? ==> h.profile == e.profile.value)
    && h.release >= e.minimumRelease
  }

  method ReadHead(reader: Reader, e: Expectation) returns (r: Option<Head>)
    requires reader.Valid()
    modifies reader
    ensures reader.Valid()
    ensures var p := HeadC().get(old(reader.Rest()));
      && (r.Some? <==> p.Done? && HeadMeets(p.value, e))
      && (r.Some? ==> r.value == p.value && reader.Rest() == p.rest)
  {
    hide HeadC, Get16, Get64, NamesC;
    HeadGet(reader.Rest());
    var format := reader.U16();
    if format.None? || format.value < 1 || format.value > 5 {
      return None;
    }
    var runtime := reader.U16();
    if runtime.None? || runtime.value > RUNTIME_VERSION {
      return None;
    }
    var release := reader.U64();
    if release.None? {
      return None;
    }
    var profile := reader.U8();
    if profile.None? {
      return None;
    }
    var platform := reader.U8();
    if platform.None? || profile.value < 1 || profile.value > 4 || platform.value < 1 || platform.value > 4 {
      return None;
    }
    var names := ReadNames(reader);
    if names.None? {
      return None;
    }
    var h := HeadFrom(((format.value, (runtime.value, (release.value, (profile.value, platform.value)))), names.value));
    if h.release == 0 || h.minimumRuntime < h.format || !HeadMeets(h, e) || h.stateSchema == 0 || h.keyVersion == 0 {
      return None;
    }
    r := Some(h);
  }

  function GetTasks(format: u16, b: Bytes): Parsed<u32> {
    if format >= 2 then Get32(b) else Done(64, b)
  }

  function GetLimits(format: u16, b: Bytes): Parsed<Limits> {
    match Get32(b)
    case Fail => Fail
    case Done(instructions, b1) =>
      match Get32(b1)
      case Fail => Fail
      case Done(stack, b2) =>
        match Get32(b2)
        case Fail => Fail
        case Done(stateBytes, b3) =>
          match Get32(b3)
          case Fail => Fail
          case Done(nodes, b4) =>
            match GetTasks(format, b4)
            case Fail => Fail
            case Done(tasks, b5) =>
              var l := Limits(instructions, stack, stateBytes, nodes, tasks);
              if LimitsOk(l) then Done(l, b5) else Fail
  }

  lemma {:induction false} LimitsGet(format: u16, b: Bytes)
    ensures LimitsC(format).get(b) == GetLimits(format, b)
  {
    hide Both, Get32, LimitsOk, TasksC;
    TasksGet(format);
    var c1 := Both(U32C(), TasksC(format));
    var c2 := Both(U32C(), c1);
    var c3 := Both(U32C(), c2);
    BothGet(U32C(), c3, b);
    var b1 := if Get32(b).Done? then Get32(b).rest else [];
    BothGet(U32C(), c2, b1);
    var b2 := if Get32(b1).Done? then Get32(b1).rest else [];
    BothGet(U32C(), c1, b2);
    var b3 := if Get32(b2).Done? then Get32(b2).rest else [];
    BothGet(U32C(), TasksC(format), b3);
  }

  lemma {:induction false} TasksGet(format: u16)
    ensures forall b :: TasksC(format).get(b) == GetTasks(format, b)
  {
    hide Get32;
  }

  method ReadLimits(reader: Reader, format: u16) returns (r: Option<Limits>)
    requires reader.Valid()
    modifies reader
    ensures reader.Valid() && Took(r, LimitsC(format).get(old(reader.Rest())), reader.Rest())
  {
    LimitsGet(format, reader.Rest());
    hide Get32, LimitsOk, LimitsC;
    var instructions := reader.U32();
    if instructions.None? {
      return None;
    }
    var stack := reader.U32();
    if stack.None? {
      return None;
    }
    var stateBytes := reader.U32();
    if stateBytes.None? {
      return None;
    }
    var nodes := reader.U32();
    if nodes.None? {
      return None;
    }
    var tasks: Option<u32> := Some(64);
    if format >= 2 {
      tasks := reader.U32();
    }
    if tasks.None? {
      return None;
    }
    var l := Limits(instructions.value, stack.value, stateBytes.value, nodes.value, tasks.value);
    return if LimitsOk(l) then Some(l) else None;
  }

  // -------- the state table --------

  type Field = (u64, Value)

  // What the loop has checked of the fields read so far.
  ghost predicate FieldsOk(m: Module, es: seq<Field>) {
    && StateSize(FieldValues(es)) <= m.limits.maxStateBytes
    && Distinct(FieldIds(m.format, es))
    && (m.format >= 4 ==> forall i :: 0 <= i < |es| ==> es[i].0 != 0)
  }

  lemma {:induction false} SizeConcat(a: seq<Value>, b: seq<Value>)
    ensures StateSize(a + b) == StateSize(a) + StateSize(b)
  {
    if a == [] {
      assert a + b == b;
    } else {
      assert (a + b)[1..] == a[1..] + b;
      SizeConcat(a[1..], b);
    }
  }

  lemma {:induction false} FieldsConcat(m: Module, es: seq<Field>, rest: seq<Field>)
    ensures FieldValues(es + rest) == FieldValues(es) + FieldValues(rest)
    ensures FieldIds(m.format, es + rest) == FieldIds(m.format, es) + FieldIds(m.format, rest)
    ensures FieldsOk(m, es + rest) ==> FieldsOk(m, es)
  {
    assert FieldValues(es + rest) == FieldValues(es) + FieldValues(rest);
    assert FieldIds(m.format, es + rest) == FieldIds(m.format, es) + FieldIds(m.format, rest);
    SizeConcat(FieldValues(es), FieldValues(rest));
    DistinctConcat(FieldIds(m.format, es), FieldIds(m.format, rest));
    if FieldsOk(m, es + rest) {
      assert forall i :: 0 <= i < |es| ==> (es + rest)[i] == es[i];
    }
  }

  // One more field passes exactly when its own checks do.
  lemma {:induction false} FieldStep(m: Module, es: seq<Field>, e: Field)
    requires FieldsOk(m, es)
    ensures FieldsOk(m, es + [e]) <==>
      && (m.format >= 4 ==> e.0 != 0 && e.0 !in FieldIds(m.format, es))
      && StateSize(FieldValues(es)) + ValueSize(e.1) <= m.limits.maxStateBytes
    ensures StateSize(FieldValues(es + [e])) == StateSize(FieldValues(es)) + ValueSize(e.1)
  {
    FieldsConcat(m, es, [e]);
    assert FieldValues([e]) == [e.1];
    SizeConcat(FieldValues(es), [e.1]);
    assert StateSize([e.1]) == ValueSize(e.1);
    if m.format >= 4 {
      assert FieldIds(m.format, [e]) == [e.0];
    }
    DistinctConcat(FieldIds(m.format, es), FieldIds(m.format, [e]));
    if FieldsOk(m, es + [e]) {
      assert (es + [e])[|es|] == e;
    }
  }

  function FieldC(m: Module): Codec<Field> {
    Both(StateIdC(m.format), TypedC(m.constants))
  }

  lemma {:induction false} FieldGet(m: Module, b: Bytes)
    ensures FieldC(m).get(b) ==
      if m.format >= 4 then
        match Get64(b)
        case Fail => Fail
        case Done(id, rest) =>
          match GetTyped(m.constants, rest) case Fail => Fail case Done(v, r) => Done((id, v), r)
      else
        match GetTyped(m.constants, b) case Fail => Fail case Done(v, r) => Done((0, v), r)
  {
    hide Get64, GetTyped;
  }

  lemma {:induction false} StatesGet(m: Module, b: Bytes)
    ensures StatesC(m.format, m.constants).get(b) ==
      match Get16(b) case Fail => Fail case Done(n, rest) => GetAll(FieldC(m), n, rest)
  {
    hide Get16, GetAll, StateIdC, TypedC;
  }

  // The finished table is what the module records.
  lemma {:induction false} FieldsFinish(m: Module, es: seq<Field>)
    requires forall i :: 0 <= i < |es| ==> (es[i].1.StringValue? ==> es[i].1.s in m.constants)
    ensures var m' := m.(stateIds := FieldIds(m.format, es), initialState := FieldValues(es));
      StatesOk(m') <==> |es| <= 4096 && FieldsOk(m, es)
  {
    var m' := m.(stateIds := FieldIds(m.format, es), initialState := FieldValues(es));
    if m.format >= 4 {
      assert forall i :: 0 <= i < |es| ==> m'.stateIds[i] == es[i].0;
    }
    assert forall i :: 0 <= i < |es| ==> m'.initialState[i] == es[i].1;
  }

  lemma {:induction false} TypedInPool(pool: seq<Bytes>, b: Bytes)
    requires GetTyped(pool, b).Done? && GetTyped(pool, b).value.StringValue?
    ensures GetTyped(pool, b).value.s in pool
  {
    hide Get16, GetI64;
  }

  lemma {:induction false} FieldsInPool(m: Module, n: nat, b: Bytes)
    requires GetAll(FieldC(m), n, b).Done?
    ensures var es := GetAll(FieldC(m), n, b).value;
      |es| == n && forall i :: 0 <= i < |es| ==> (es[i].1.StringValue? ==> es[i].1.s in m.constants)
    decreases n
  {
    if n == 0 {
    } else {
      hide FieldC, GetTyped, Get64;
      FieldGet(m, b);
      var v, rest := FieldC(m).get(b).value, FieldC(m).get(b).rest;
      if v.1.StringValue? {
        TypedInPool(m.constants, if m.format >= 4 then Get64(b).rest else b);
      }
      FieldsInPool(m, n - 1, rest);
    }
  }

  // What the next field means for the whole table.
  lemma {:induction false} FieldsAhead(m: Module, es: seq<Field>, n: nat, b: Bytes)
    requires n > 0 && FieldsOk(m, es)
    ensures var p := FieldC(m).get(b);
      p.Done? ==>
        && FieldValues(es + [p.value]) == FieldValues(es) + [p.value.1]
        && FieldIds(m.format, es + [p.value]) == FieldIds(m.format, es) + (if m.format >= 4 then [p.value.0] else [])
        && (FieldsOk(m, es + [p.value]) <==>
              && (m.format >= 4 ==> p.value.0 != 0 && p.value.0 !in FieldIds(m.format, es))
              && StateSize(FieldValues(es)) + ValueSize(p.value.1) <= m.limits.maxStateBytes)
        && StateSize(FieldValues(es + [p.value])) == StateSize(FieldValues(es)) + ValueSize(p.value.1)
        && (GetAll(FieldC(m), n - 1, p.rest).Done? && !FieldsOk(m, es + [p.value]) ==>
              !FieldsOk(m, Resumed(es, GetAll(FieldC(m), n, b)).value))
  {
    hide FieldC, FieldsOk, StateSize;
    var p := FieldC(m).get(b);
    if p.Done? {
      FieldStep(m, es, p.value);
      FieldsConcat(m, es, [p.value]);
      assert FieldValues([p.value]) == [p.value.1];
      if m.format >= 4 {
        assert FieldIds(m.format, [p.value]) == [p.value.0];
      }
      if GetAll(FieldC(m), n - 1, p.rest).Done? {
        var after := GetAll(FieldC(m), n - 1, p.rest).value;
        assert es + ([p.value] + after) == es + [p.value] + after;
        FieldsConcat(m, es + [p.value], after);
      }
    }
  }

  lemma {:induction false} NoFields(m: Module)
    ensures FieldsOk(m, []) && FieldValues([]) == [] && StateSize([]) == 0 && FieldIds(m.format, []) == []
  {
  }

  method ReadStates(reader: Reader, m: Module) returns (r: Option<Module>)
    requires reader.Valid()
    modifies reader
    ensures reader.Valid()
    ensures var p := StatesC(m.format, m.constants).get(old(reader.Rest()));
      && (r.Some? <==>
            p.Done? && StatesOk(m.(stateIds := FieldIds(m.format, p.value), initialState := FieldValues(p.value))))
      && (r.Some? ==>
            && r.value == m.(stateIds := FieldIds(m.format, p.value), initialState := FieldValues(p.value))
            && reader.Rest() == p.rest)
  {
    hide StatesC, FieldC, Get16, Get64, GetTyped, FieldsOk, StatesOk, StateSize, FieldIds, FieldValues;
    StatesGet(m, reader.Rest());
    var count := reader.U16();
    if count.None? {
      return None;
    }
    ghost var whole := GetAll(FieldC(m), count.value, reader.Rest());
    if whole.Done? {
      FieldsInPool(m, count.value, reader.Rest());
      FieldsFinish(m, whole.value);
    }
    if count.value > 4096 {
      return None;
    }
    ListStart(whole);
    NoFields(m);
    ghost var es: seq<Field> := [];
    var ids: seq<u64>, values: seq<Value>, bytes := [], [], 0;
    for i := 0 to count.value
      invariant reader.Valid() && whole == Resumed(es, GetAll(FieldC(m), count.value - i, reader.Rest()))
      invariant ids == FieldIds(m.format, es) && values == FieldValues(es)
      invariant FieldsOk(m, es) && bytes == StateSize(values)
    {
      FieldGet(m, reader.Rest());
      ListStep(FieldC(m), count.value - i, es, reader.Rest());
      ghost var e := FieldC(m).get(reader.Rest());
      FieldsAhead(m, es, count.value - i, reader.Rest());
      if m.format >= 4 {
        var id := reader.U64();
        if id.None? || id.value == 0 || id.value in ids {
          return None;
        }
        ids := ids + [id.value];
      }
      var v := ReadTyped(reader, m.constants);
      if v.None? {
        return None;
      }
      bytes := bytes + ValueSize(v.value);
      if bytes > m.limits.maxStateBytes {
        return None;
      }
      values := values + [v.value];
      es := es + [e.value];
    }
    ListEnd(FieldC(m), es, reader.Rest());
    r := Some(m.(stateIds := ids, initialState := values));
  }

  // -------- tables --------

  // The four text tables with the capability versions between them.
  ghost function GetTables(h: Head, l: Limits, b: Bytes): Option<(Module, Bytes)> {
    match TextTable().get(b)
    case Fail => None
    case Done(capabilities, b1) =>
      match VersionsC(h.format, |capabilities|).get(b1)
      case Fail => None
      case Done(versions, b2) =>
        match TextTable().get(b2)
        case Fail => None
        case Done(domains, b3) =>
          match TextTable().get(b3)
          case Fail => None
          case Done(scopes, b4) =>
            match TextTable().get(b4)
            case Fail => None
            case Done(constants, b5) =>
              Some((Payload.Start(h, l).(capabilities := capabilities, capabilityVersions := versions,
                                         domains := domains, storageScopes := scopes, constants := constants), b5))
  }

  lemma {:induction false} TablesGet(h: Head, l: Limits, b: Bytes)
    ensures ParseTables(h, l, b) ==
      match GetTables(h, l, b)
      case None => None
      case Some(t) => if TablesOk(t.0) then ParseStates(t.0, t.1) else None
  {
    hide TextTable, VersionsC, ParseStates, TablesOk;
  }

  lemma {:induction false} VersionsRead(format: u16, n: nat, b: Bytes)
    requires VersionsC(format, n).get(b).Done?
    ensures var vs := VersionsC(format, n).get(b).value;
      |vs| == n && if format >= 3 then forall i :: 0 <= i < |vs| ==> vs[i] != 0 else vs == Ones(n)
  {
    VersionsLawful(format, n);
    hide VersionsC, Lawful;
    Read(VersionsC(format, n), b);
    VersionsAccepts(format, n, VersionsC(format, n).get(b).value);
  }

  lemma {:induction false} TableRead(b: Bytes)
    requires TextTable().get(b).Done?
    ensures |TextTable().get(b).value| <= MAX_U16 && AllShort(TextTable().get(b).value)
  {
    TextTableLawful();
    hide TextTable, Lawful;
    Read(TextTable(), b);
    TextTableAccepts(TextTable().get(b).value);
  }

  lemma {:induction false} TablesRead(h: Head, l: Limits, b: Bytes)
    requires GetTables(h, l, b).Some?
    ensures var m := GetTables(h, l, b).value.0;
      TablesOk(m) <==>
        && |m.capabilities| <= 4096 && |m.domains| <= 4096 && |m.storageScopes| <= 4096
        && Distinct(m.capabilities) && Distinct(m.domains) && Distinct(m.storageScopes) && Distinct(m.constants)
  {
    hide TextTable, VersionsC, AllShort;
    TableRead(b);
    var capabilities, b1 := TextTable().get(b).value, TextTable().get(b).rest;
    VersionsRead(h.format, |capabilities|, b1);
    var b2 := VersionsC(h.format, |capabilities|).get(b1).rest;
    TableRead(b2);
    var b3 := TextTable().get(b2).rest;
    TableRead(b3);
    TableRead(TextTable().get(b3).rest);
  }

  // A table is free of duplicates when the set of its entries is as large as it is.
  method Unique<T(==)>(values: seq<T>) returns (r: bool)
    ensures r <==> Distinct(values)
  {
    DistinctBySize(values);
    var entries := set v | v in values;
    r := |entries| == |values|;
  }

  method ReadTables(reader: Reader, h: Head, l: Limits) returns (r: Option<Module>)
    requires reader.Valid()
    modifies reader
    ensures reader.Valid()
    ensures ParseTables(h, l, old(reader.Rest()))
      == match r case None => None case Some(m) => ParseStates(m, reader.Rest())
    ensures r.Some? ==> TablesOk(r.value) && r.value.format == h.format && r.value.limits == l
  {
    hide TextTable, VersionsC, ParseStates, TablesOk, ParseTables, Distinct;
    ghost var before := reader.Rest();
    TablesGet(h, l, before);
    var capabilities := ReadTextTable(reader);
    if capabilities.None? {
      return None;
    }
    var versions := ReadVersions(reader, h.format, |capabilities.value|);
    if versions.None? {
      return None;
    }
    var domains := ReadTextTable(reader);
    if domains.None? {
      return None;
    }
    var scopes := ReadTextTable(reader);
    if scopes.None? {
      return None;
    }
    var constants := ReadTextTable(reader);
    if constants.None? {
      return None;
    }
    var m := Payload.Start(h, l).(capabilities := capabilities.value, capabilityVersions := versions.value,
                                  domains := domains.value, storageScopes := scopes.value, constants := constants.value);
    assert GetTables(h, l, before) == Some((m, reader.Rest()));
    TablesRead(h, l, before);
    if |m.capabilities| > 4096 || |m.domains| > 4096 || |m.storageScopes| > 4096 {
      return None;
    }
    var a := Unique(m.capabilities);
    var b := Unique(m.domains);
    var c := Unique(m.storageScopes);
    var d := Unique(m.constants);
    return if a && b && c && d then Some(m) else None;
  }

  // -------- pages and the entry point --------

  lemma {:induction false} PagesGet(m: Module, b: Bytes)
    ensures PagesC(m).get(b) ==
      match Get16(b) case Fail => Fail case Done(n, rest) => GetNodes(m, MAX_UI_DEPTH, n, rest)
  {
    hide Get16, GetNodes;
  }

  // The census decides what is left of PagesOk once every node has parsed.
  lemma {:induction false} PagesAdmitted(m: Module, b: Bytes)
    requires PagesC(m).get(b).Done?
    ensures var pages := PagesC(m).get(b).value;
      PagesOk(m.(pages := pages)) <==> |pages| > 0 && Admits(m, 0, {}, IdsAll(pages))
  {
    PagesLawful(m);
    hide PagesC, Lawful, Distinct;
    Read(PagesC(m), b);
    var pages := PagesC(m).get(b).value;
    PagesAccepts(m, pages);
    forall i | 0 <= i < |pages| ensures NodeOk(m.(pages := pages), pages[i]) {
      NodeOkLocal(m, m.(pages := pages), pages[i]);
    }
  }

  method ReadPages(reader: Reader, m: Module) returns (r: Option<Module>)
    requires reader.Valid()
    modifies reader
    ensures reader.Valid()
    ensures ParsePages(m, old(reader.Rest()))
      == match r case None => None case Some(m') => ParseEntry(m', reader.Rest())
    ensures r.Some? ==> r.value == m.(pages := r.value.pages)
  {
    hide PagesC, ParseEntry, PagesOk, Get16, Admits, GetNodes, IdsAll;
    PagesGet(m, reader.Rest());
    if PagesC(m).get(reader.Rest()).Done? {
      PagesAdmitted(m, reader.Rest());
    }
    var count := reader.U16();
    if count.None? {
      return None;
    }
    ghost var nodes := GetNodes(m, MAX_UI_DEPTH, count.value, reader.Rest());
    if nodes.Done? {
      NodesLength(m, MAX_UI_DEPTH, count.value, reader.Rest());
    }
    if count.value == 0 {
      return None;
    }
    var census := new Census();
    var pages := ReadNodes(reader, m, 1, count.value, census);
    return if pages.None? then None else Some(m.(pages := pages.value));
  }

  lemma {:induction false} NodesLength(m: Module, d: nat, n: nat, b: Bytes)
    requires GetNodes(m, d, n, b).Done?
    ensures |GetNodes(m, d, n, b).value| == n
    decreases n
  {
    hide GetNode;
    if n == 0 {
    } else {
      NodesLength(m, d, n - 1, GetNode(m, d, b).rest);
    }
  }

  method ReadEntry(reader: Reader, m: Module) returns (r: Option<Module>)
    requires reader.Valid() && |m.handlers| <= MAX_U16 && HandlersOk(m)
    modifies reader
    ensures r == ParseEntry(m, old(reader.Rest()))
  {
    hide Get16, CodeOk;
    var page := reader.U16();
    if page.None? {
      return None;
    }
    var handler := reader.U16();
    if handler.None? {
      return None;
    }
    if page.value >= |m.pages| || (handler.value != 0xFFFF && handler.value >= |m.handlers|) {
      return None;
    }
    var m' := m.(entryPage := page.value, entryHandler := if handler.value == 0xFFFF then None else Some(handler.value));
    var empty := reader.Empty();
    if !empty {
      return None;
    }
    HandlersLocal(m, m');
    var accepted := ValidateAll(m');
    return if accepted then Some(m') else None;
  }

  lemma {:induction false} HandlersLocal(m: Module, m': Module)
    requires HandlersOk(m) && m' == m.(entryPage := m'.entryPage, entryHandler := m'.entryHandler)
    ensures HandlersOk(m')
  {
  }

  method ValidateAll(m: Module) returns (accepted: bool)
    requires |m.handlers| <= MAX_U16 && HandlersOk(m)
    ensures accepted <==> CodeOk(m)
  {
    for h := 0 to |m.handlers|
      invariant forall k :: 0 <= k < h ==> Typable(m, RuntimePolicy, m.handlers[k])
    {
      var ok, order := ValidateHandler(m, m.handlers[h]);
      if !ok {
        return false;
      }
    }
    accepted := true;
  }

  // -------- the whole payload --------

  lemma {:induction false} HandlersRead(m: Module, b: Bytes)
    requires HandlersC(m).get(b).Done? && PoolOk(m.constants)
    ensures var m' := m.(handlers := HandlersC(m).get(b).value);
      |m'.handlers| <= MAX_U16 && HandlersOk(m')
  {
    HandlersLawful(m);
    hide HandlersC, Lawful;
    Read(HandlersC(m), b);
    var hs := HandlersC(m).get(b).value;
    HandlersAccepts(m, hs);
    forall h | 0 <= h < |hs| ensures Operands(m.(handlers := hs), hs[h]) {
      OperandsLocal(m, m.(handlers := hs), hs[h]);
    }
  }

  method ReadBody(reader: Reader, m: Module) returns (r: Option<Module>)
    requires reader.Valid() && TablesOk(m)
    modifies reader
    ensures r == ParseStates(m, old(reader.Rest()))
  {
    assert PoolOk(m.constants);
    hide StatesC, HandlersC, ParsePages, ParseEntry, StatesOk, HandlersOk, TablesOk, PoolOk;
    var stated := ReadStates(reader, m);
    if stated.None? {
      return None;
    }
    var m1 := stated.value;
    if HandlersC(m1).get(reader.Rest()).Done? {
      HandlersRead(m1, reader.Rest());
    }
    var handlers := ReadHandlers(reader, m1);
    if handlers.None? {
      return None;
    }
    var m2 := m1.(handlers := handlers.value);
    var paged := ReadPages(reader, m2);
    if paged.None? {
      return None;
    }
    PagesLeaveHandlers(m2, paged.value);
    r := ReadEntry(reader, paged.value);
  }

  lemma {:induction false} PagesLeaveHandlers(m: Module, m': Module)
    requires HandlersOk(m) && m' == m.(pages := m'.pages)
    ensures HandlersOk(m')
  {
  }

  method ParsePayload(payload: Bytes, e: Expectation) returns (r: Option<Module>)
    ensures r == Payload.ParsePayload(payload, e)
  {
    hide HeadC, LimitsC, ParseTables, ParseStates, TablesOk, LimitsOk, Meets, HeadMeets, HeadOk;
    var reader := new Reader(payload);
    var magic := reader.TakeBytes(4);
    if magic.None? || magic.value != PVBC {
      return None;
    }
    ghost var b0 := reader.Rest();
    MeetsHead(b0, e);
    var h := ReadHead(reader, e);
    if h.None? {
      return None;
    }
    var l := ReadLimits(reader, h.value.format);
    if l.None? {
      return None;
    }
    var m := ReadTables(reader, h.value, l.value);
    if m.None? {
      return None;
    }
    r := ReadBody(reader, m.value);
  }

  // The head decides whether a module meets the host's expectation.
  lemma {:induction false} MeetsHead(b: Bytes, e: Expectation)
    ensures HeadC().get(b).Done? ==>
      var h, rest := HeadC().get(b).value, HeadC().get(b).rest;
      LimitsC(h.format).get(rest).Done? ==>
        var l, rest' := LimitsC(h.format).get(rest).value, LimitsC(h.format).get(rest).rest;
        ParseTables(h, l, rest').Some? ==> (Meets(ParseTables(h, l, rest').value, e) <==> HeadMeets(h, e))
  {
    hide HeadC, LimitsC, ParseTables, TablesOk, StatesOk, PagesOk, EntryOk, CodeOk, EncodeFromTables;
    if HeadC().get(b).Done? {
      var h, rest := HeadC().get(b).value, HeadC().get(b).rest;
      if LimitsC(h.format).get(rest).Done? {
        var l, rest' := LimitsC(h.format).get(rest).value, LimitsC(h.format).get(rest).rest;
        if ParseTables(h, l, rest').Some? {
          TablesParsed(h, l, rest');
        }
      }
    }
  }
}

/** State snapshots in their two layouts: saving, restoring, the round trip, and exactly
    which states can be saved. */
module StateCodec {
  import opened Basics
  import opened ByteCodec
  import opened Bytecode

  const MAGIC: Bytes := [80, 86, 83, 84]

  // -------- one value --------

  function Tag(t: ValueType): u8 {
    match t case Integer => 1 case Boolean => 2 case String => 3
  }

  predicate Persistable(v: Value) {
    v.StringValue? ==> |v.s| <= MAX_U16
  }

  function PutValue(v: Value): Bytes
    requires Persistable(v)
  {
    [Tag(TypeOf(v))] +
    match v
    case IntValue(i) => PutI64(i)
    case BoolValue(b) => [if b then 1 else 0]
    case StringValue(s) => PutText(s)
  }

  function GetValue(b: Bytes): Parsed<Value> {
    match Get8(b)
    case Fail => Fail
    case Done(tag, rest) =>
      if tag == 1 then
        match GetI64(rest) case Fail => Fail case Done(i, r) => Done(IntValue(i), r)
      else if tag == 2 then
        match Get8(rest)
        case Fail => Fail
        case Done(raw, r) => if raw > 1 then Fail else Done(BoolValue(raw == 1), r)
      else if tag == 3 then
        match GetText(rest) case Fail => Fail case Done(s, r) => Done(StringValue(s), r)
      else Fail
  }

  lemma {:induction false} ValueRoundTrip(v: Value, r: Bytes)
    requires Persistable(v)
    ensures GetValue(PutValue(v) + r) == Done(v, r)
  {
    hide PutI64, GetI64, PutText, GetText;
    match v
    case IntValue(i) =>
      CodecI64(i, r, []);
      assert (PutValue(v) + r)[1..] == PutI64(i) + r;
    case BoolValue(b) =>
      assert (PutValue(v) + r)[1..] == [if b then 1 else 0] + r;
    case StringValue(s) =>
      CodecText(s, r, []);
      assert (PutValue(v) + r)[1..] == PutText(s) + r;
  }

  // What restoring charges for a value: a boolean costs one byte here, eight in the
  // running state.
  function RestoredSize(v: Value): nat {
    match v
    case IntValue(_) => 8
    case BoolValue(_) => 1
    case StringValue(s) => |s|
  }

  function RestoredTotal(vs: seq<Value>): nat {
    if vs == [] then 0 else RestoredSize(vs[0]) + RestoredTotal(vs[1..])
  }

  function BoolCount(vs: seq<Value>): nat {
    if vs == [] then 0 else (if vs[0].BoolValue? then 1 else 0) + BoolCount(vs[1..])
  }

  // -------- snapshot_state --------

  predicate StableIds(m: Module) {
    m.format >= 4
  }

  // The module's identifiers are usable: one per field, none zero, none repeated.
  ghost predicate StateOk(m: Module) {
    && |m.initialState| <= 4096
    && (StableIds(m) ==>
          && |m.stateIds| == |m.initialState|
          && Distinct(m.stateIds)
          && forall i :: 0 <= i < |m.stateIds| ==> m.stateIds[i] != 0)
    && (!StableIds(m) ==> m.stateIds == [])
  }

  function FieldsFrom(m: Module, state: seq<Value>, k: nat): Bytes
    requires k <= |state| && (StableIds(m) ==> |m.stateIds| == |state|)
    requires forall i :: 0 <= i < |state| ==> Persistable(state[i])
    decreases |state| - k
  {
    if k == |state| then []
    else (if StableIds(m) then Put64(m.stateIds[k]) else []) + PutValue(state[k])
         + FieldsFrom(m, state, k + 1)
  }

  function SnapshotBytes(m: Module, state: seq<Value>): Bytes
    requires |state| <= MAX_U16 && (StableIds(m) ==> |m.stateIds| == |state|)
    requires forall i :: 0 <= i < |state| ==> Persistable(state[i])
  {
    MAGIC + Put16(if StableIds(m) then 2 else 1) + Put64(m.stateSchema) + Put16(|state|)
    + FieldsFrom(m, state, 0)
  }

  function SnapshotState(m: Module, state: seq<Value>): Option<Bytes>
    requires |state| <= MAX_U16 && (StableIds(m) ==> |m.stateIds| == |state|)
  {
    if exists i | 0 <= i < |state| :: !Persistable(state[i]) then None
    else
      var output := SnapshotBytes(m, state);
      if |output| > m.limits.maxStateBytes + |state| * 11 + 16 then None else Some(output)
  }

  // -------- restore_state --------

  // Layout 1: one value per field of the current state, of the same type.
  function RestoreFields(expected: seq<Value>, used: nat, budget: nat, b: Bytes): Parsed<seq<Value>>
    decreases |expected|
  {
    if expected == [] then Done([], b)
    else
      match GetValue(b)
      case Fail => Fail
      case Done(v, rest) =>
        if TypeOf(v) != TypeOf(expected[0]) || used + RestoredSize(v) > budget then Fail
        else
          match RestoreFields(expected[1..], used + RestoredSize(v), budget, rest)
          case Fail => Fail
          case Done(vs, r) => Done([v] + vs, r)
  }

  // Layout 2: values under their persistence IDs.
  function RestoreEntries(count: nat, seen: map<u64, Value>, used: nat, budget: nat, b: Bytes)
    : Parsed<map<u64, Value>>
    decreases count
  {
    if count == 0 then Done(seen, b)
    else
      match Get64(b)
      case Fail => Fail
      case Done(id, afterId) =>
        if id == 0 || id in seen then Fail
        else
          match GetValue(afterId)
          case Fail => Fail
          case Done(v, rest) =>
            if used + RestoredSize(v) > budget then Fail
            else RestoreEntries(count - 1, seen[id := v], used + RestoredSize(v), budget, rest)
  }

  // A field takes its persisted value if there is one.
  function Pick(id: u64, initial: Value, persisted: map<u64, Value>): Value {
    if id in persisted then persisted[id] else initial
  }

  function Migrated(m: Module, persisted: map<u64, Value>): (r: seq<Value>)
    requires |m.stateIds| == |m.initialState|
    ensures |r| == |m.initialState|
  {
    seq(|m.initialState|, i requires 0 <= i < |m.initialState| =>
      Pick(m.stateIds[i], m.initialState[i], persisted))
  }

  predicate Compatible(m: Module, persisted: map<u64, Value>)
    requires |m.stateIds| == |m.initialState|
  {
    forall i | 0 <= i < |m.stateIds| ::
      m.stateIds[i] in persisted ==> TypeOf(persisted[m.stateIds[i]]) == TypeOf(m.initialState[i])
  }

  predicate AnyMatch(m: Module, persisted: map<u64, Value>) {
    exists i | 0 <= i < |m.stateIds| :: m.stateIds[i] in persisted
  }

  function RestoreV1(m: Module, state: seq<Value>, schema: u64, count: nat, b: Bytes): Option<seq<Value>> {
    if schema != m.stateSchema || count != |state| then None
    else
      match RestoreFields(state, 0, m.limits.maxStateBytes, b)
      case Fail => None
      case Done(vs, rest) => if rest == [] then Some(vs) else None
  }

  function RestoreV2(m: Module, count: nat, b: Bytes): Option<seq<Value>> {
    if |m.stateIds| != |m.initialState| || count > 4096 then None
    else
      match RestoreEntries(count, map[], 0, m.limits.maxStateBytes, b)
      case Fail => None
      case Done(persisted, rest) =>
        if rest != [] || !Compatible(m, persisted) then None
        else if count != 0 && m.stateIds != [] && !AnyMatch(m, persisted) then None
        else Some(Migrated(m, persisted))
  }

  datatype Header = Header(version: u16, schema: u64, count: u16)

  function GetHeader(b: Bytes): Parsed<Header> {
    match GetBytes(b, 4)
    case Fail => Fail
    case Done(magic, b1) =>
      if magic != MAGIC then Fail
      else
        match Get16(b1)
        case Fail => Fail
        case Done(version, b2) =>
          match Get64(b2)
          case Fail => Fail
          case Done(schema, b3) =>
            match Get16(b3)
            case Fail => Fail
            case Done(count, b4) => Done(Header(version, schema, count), b4)
  }

  function RestoreState(m: Module, state: seq<Value>, b: Bytes): Option<seq<Value>> {
    match GetHeader(b)
    case Fail => None
    case Done(h, rest) =>
      if h.version == 1 then RestoreV1(m, state, h.schema, h.count, rest)
      else if h.version == 2 && |m.stateIds| == |state| then RestoreV2(m, h.count, rest)
      else None
  }

  // -------- round trip --------

  lemma {:induction false} HeaderRoundTrip(version: u16, schema: u64, count: u16, r: Bytes)
    ensures GetHeader(MAGIC + Put16(version) + Put64(schema) + Put16(count) + r)
         == Done(Header(version, schema, count), r)
  {
    var b := MAGIC + Put16(version) + Put64(schema) + Put16(count) + r;
    var b3 := Put16(count) + r;
    var b2 := Put64(schema) + b3;
    var b1 := Put16(version) + b2;
    assert b == MAGIC + b1 && b[4..] == b1 && b[..4] == MAGIC;
    Codec16(version, b2, []);
    Codec64(schema, b3, []);
    Codec16(count, r, []);
  }

  lemma {:induction false} TotalsBound(vs: seq<Value>)
    ensures StateSize(vs) == RestoredTotal(vs) + 7 * BoolCount(vs)
  {
    if vs == [] {
    } else {
      TotalsBound(vs[1..]);
    }
  }

  lemma {:induction false} RestoreFieldsStep(expected: seq<Value>, used: nat, budget: nat, b: Bytes,
                                             v: Value, rest: Bytes, vs: seq<Value>, r: Bytes)
    requires expected != [] && GetValue(b) == Done(v, rest)
    requires TypeOf(v) == TypeOf(expected[0]) && used + RestoredSize(v) <= budget
    requires RestoreFields(expected[1..], used + RestoredSize(v), budget, rest) == Done(vs, r)
    ensures RestoreFields(expected, used, budget, b) == Done([v] + vs, r)
  {
  }

  lemma {:induction false} RestoreEntriesStep(count: nat, seen: map<u64, Value>, used: nat, budget: nat,
                                              b: Bytes, id: u64, afterId: Bytes, v: Value, rest: Bytes)
    requires count > 0 && Get64(b) == Done(id, afterId) && GetValue(afterId) == Done(v, rest)
    requires id != 0 && id !in seen && used + RestoredSize(v) <= budget
    ensures RestoreEntries(count, seen, used, budget, b)
         == RestoreEntries(count - 1, seen[id := v], used + RestoredSize(v), budget, rest)
  {
    hide Get64, GetValue;
  }

  lemma {:induction false} FieldLayout(m: Module, state: seq<Value>, k: nat)
    requires k < |state| && (StableIds(m) ==> |m.stateIds| == |state|)
    requires forall i :: 0 <= i < |state| ==> Persistable(state[i])
    ensures var b, rest := FieldsFrom(m, state, k), FieldsFrom(m, state, k + 1);
      var afterId := PutValue(state[k]) + rest;
      && (StableIds(m) ==> Get64(b) == Done(m.stateIds[k], afterId))
      && (!StableIds(m) ==> b == afterId)
      && GetValue(afterId) == Done(state[k], rest)
  {
    hide GetValue, PutValue, Get64, Put64;
    var b, rest := FieldsFrom(m, state, k), FieldsFrom(m, state, k + 1);
    ValueRoundTrip(state[k], rest);
    if StableIds(m) {
      assert b == Put64(m.stateIds[k]) + (PutValue(state[k]) + rest);
      Codec64(m.stateIds[k], PutValue(state[k]) + rest, []);
    }
  }

  lemma {:induction false} TotalStep(state: seq<Value>, k: nat)
    requires k < |state|
    ensures state[k..] == [state[k]] + state[k + 1..]
    ensures RestoredTotal(state[k..]) == RestoredSize(state[k]) + RestoredTotal(state[k + 1..])
  {
    assert state[k..][1..] == state[k + 1..];
  }

  lemma {:induction false} FieldsRoundTrip(m: Module, expected: seq<Value>, state: seq<Value>, k: nat, used: nat,
      budget: nat)
    requires !StableIds(m) && k <= |state| == |expected|
    requires forall i :: 0 <= i < |state| ==> Persistable(state[i]) && TypeOf(state[i]) == TypeOf(expected[i])
    requires used + RestoredTotal(state[k..]) <= budget
    ensures RestoreFields(expected[k..], used, budget, FieldsFrom(m, state, k)) == Done(state[k..], [])
    decreases |state| - k
  {
    hide GetValue, PutValue, Get64, Put64;
    if k == |state| {
    } else {
      FieldLayout(m, state, k);
      TotalStep(state, k);
      assert expected[k..][1..] == expected[k + 1..];
      var size := RestoredSize(state[k]);
      FieldsRoundTrip(m, expected, state, k + 1, used + size, budget);
      RestoreFieldsStep(expected[k..], used, budget, FieldsFrom(m, state, k), state[k],
                        FieldsFrom(m, state, k + 1), state[k + 1..], []);
    }
  }

  // The map a layout-2 snapshot stands for, built in the order of the fields.
  function Stored(ids: seq<u64>, state: seq<Value>, k: nat, seen: map<u64, Value>): map<u64, Value>
    requires k <= |state| == |ids|
    decreases |state| - k
  {
    if k == |state| then seen else Stored(ids, state, k + 1, seen[ids[k] := state[k]])
  }

  lemma {:induction false} EntriesRoundTrip(m: Module, state: seq<Value>, k: nat, seen: map<u64, Value>,
                                            used: nat, budget: nat)
    requires StateOk(m) && StableIds(m) && k <= |state| == |m.stateIds|
    requires forall i :: 0 <= i < |state| ==> Persistable(state[i])
    requires forall i :: k <= i < |state| ==> m.stateIds[i] !in seen
    requires used + RestoredTotal(state[k..]) <= budget
    ensures RestoreEntries(|state| - k, seen, used, budget, FieldsFrom(m, state, k))
         == Done(Stored(m.stateIds, state, k, seen), [])
    decreases |state| - k
  {
    hide GetValue, PutValue, Get64, Put64;
    if k == |state| {
    } else {
      FieldLayout(m, state, k);
      TotalStep(state, k);
      var id, v := m.stateIds[k], state[k];
      var rest := FieldsFrom(m, state, k + 1);
      RestoreEntriesStep(|state| - k, seen, used, budget, FieldsFrom(m, state, k), id, PutValue(v) + rest, v, rest);
      EntriesRoundTrip(m, state, k + 1, seen[id := v], used + RestoredSize(v), budget);
    }
  }

  // Each ID stands for its own field, and nothing else is stored.
  lemma {:induction false} StoredFinds(ids: seq<u64>, state: seq<Value>, k: nat, seen: map<u64, Value>)
    requires k <= |state| == |ids| && Distinct(ids)
    requires forall i :: 0 <= i < k ==> ids[i] in seen && seen[ids[i]] == state[i]
    requires forall x :: x in seen ==> x in ids[..k]
    ensures forall i :: 0 <= i < |ids| ==>
      ids[i] in Stored(ids, state, k, seen) && Stored(ids, state, k, seen)[ids[i]] == state[i]
    ensures forall x :: x in Stored(ids, state, k, seen) ==> x in ids
    decreases |state| - k
  {
    if k < |state| {
      assert ids[..k + 1] == ids[..k] + [ids[k]];
      StoredFinds(ids, state, k + 1, seen[ids[k] := state[k]]);
    } else {
      assert ids[..k] == ids;
    }
  }

  // The state is one that a run can hold: right types, within budget.
  ghost predicate Fits(m: Module, state: seq<Value>) {
    TypesOf(state) == TypesOf(m.initialState) && StateSize(state) <= m.limits.maxStateBytes
  }

  lemma {:induction false} TypesPointwise(a: seq<Value>, b: seq<Value>)
    requires TypesOf(a) == TypesOf(b)
    ensures |a| == |b| && forall i :: 0 <= i < |a| ==> TypeOf(a[i]) == TypeOf(b[i])
  {
    assert |TypesOf(a)| == |TypesOf(b)|;
    forall i | 0 <= i < |a| ensures TypeOf(a[i]) == TypeOf(b[i]) {
      assert TypesOf(a)[i] == TypesOf(b)[i];
    }
  }

  // Restoring a snapshot into a fresh runtime of the same module gives the state back.
  lemma {:induction false} SnapshotRoundTrip(m: Module, state: seq<Value>)
    requires StateOk(m) && Fits(m, state)
    requires forall i :: 0 <= i < |state| ==> Persistable(state[i])
    ensures RestoreState(m, m.initialState, SnapshotBytes(m, state)) == Some(state)
  {
    hide GetHeader, GetValue, PutValue, Get64, Put64, Put16;
    TypesPointwise(state, m.initialState);
    TotalsBound(state);
    assert state[0..] == state && m.initialState[0..] == m.initialState;
    HeaderRoundTrip(if StableIds(m) then 2 else 1, m.stateSchema, |state|, FieldsFrom(m, state, 0));
    if StableIds(m) {
      EntriesRoundTrip(m, state, 0, map[], 0, m.limits.maxStateBytes);
      StoredFinds(m.stateIds, state, 0, map[]);
      var persisted := Stored(m.stateIds, state, 0, map[]);
      assert Migrated(m, persisted) == state;
      if m.stateIds != [] {
        assert m.stateIds[0] in persisted;
      }
    } else {
      FieldsRoundTrip(m, m.initialState, state, 0, 0, m.limits.maxStateBytes);
    }
  }

  // -------- the snapshot size check --------

  function StringCount(vs: seq<Value>): nat {
    if vs == [] then 0 else (if vs[0].StringValue? then 1 else 0) + StringCount(vs[1..])
  }

  // The bytes a snapshot spends on each field beside its value: the type tag, and the
  // persistence ID in layout 2.
  function Overhead(m: Module): nat {
    if StableIds(m) then 9 else 1
  }

  lemma {:induction false} ValueLength(v: Value)
    requires Persistable(v)
    ensures |PutValue(v)| == 1 + RestoredSize(v) + (if v.StringValue? then 2 else 0)
  {
  }

  lemma {:induction false} FieldsLength(m: Module, state: seq<Value>, k: nat)
    requires k <= |state| && (StableIds(m) ==> |m.stateIds| == |state|)
    requires forall i :: 0 <= i < |state| ==> Persistable(state[i])
    ensures |FieldsFrom(m, state, k)|
      == (if StableIds(m) then 9 else 1) * (|state| - k) + RestoredTotal(state[k..]) + 2 * StringCount(state[k..])
    decreases |state| - k
  {
    if k == |state| {
      assert state[k..] == [];
    } else {
      FieldsLength(m, state, k + 1);
      FieldLength(m, state, k);
      assert state[k..][0] == state[k] && state[k..][1..] == state[k + 1..];
    }
  }

  lemma {:induction false} FieldLength(m: Module, state: seq<Value>, k: nat)
    requires k < |state| && (StableIds(m) ==> |m.stateIds| == |state|)
    requires forall i :: 0 <= i < |state| ==> Persistable(state[i])
    ensures |FieldsFrom(m, state, k)| == |FieldsFrom(m, state, k + 1)| + Overhead(m) + RestoredSize(state[k])
      + (if state[k].StringValue? then 2 else 0)
  {
    hide PutValue, Put64;
    ValueLength(state[k]);
    if StableIds(m) {
      Length64(m.stateIds[k]);
    }
  }

  lemma {:induction false} Length64(x: u64)
    ensures |Put64(x)| == 8
  {
  }

  // How many bytes the snapshot of a state takes.
  lemma {:induction false} SnapshotLength(m: Module, state: seq<Value>)
    requires |state| <= MAX_U16 && (StableIds(m) ==> |m.stateIds| == |state|)
    requires forall i :: 0 <= i < |state| ==> Persistable(state[i])
    ensures |SnapshotBytes(m, state)|
      == 16 + Overhead(m) * |state| + RestoredTotal(state) + 2 * StringCount(state)
  {
    hide FieldsFrom, Put64;
    FieldsLength(m, state, 0);
    Length64(m.stateSchema);
    assert state[0..] == state;
  }

  // The states that can be saved: no string is too long, and the lengths of the strings
  // leave room in the budget.
  predicate Savable(m: Module, state: seq<Value>) {
    && (forall i | 0 <= i < |state| :: Persistable(state[i]))
    && RestoredTotal(state) + 2 * StringCount(state)
         <= m.limits.maxStateBytes + (if StableIds(m) then 2 else 10) * |state|
  }

  // Saving succeeds on exactly these states, within the state budget or over it.
  lemma {:induction false} SnapshotExact(m: Module, state: seq<Value>)
    requires |state| <= MAX_U16 && (StableIds(m) ==> |m.stateIds| == |state|)
    ensures SnapshotState(m, state) == if Savable(m, state) then Some(SnapshotBytes(m, state)) else None
  {
    hide SnapshotBytes;
    if forall i :: 0 <= i < |state| ==> Persistable(state[i]) {
      SnapshotLength(m, state);
    }
  }

  lemma {:induction false} StringsAreFields(vs: seq<Value>)
    ensures StringCount(vs) <= |vs|
  {
    if vs == [] {
    } else {
      StringsAreFields(vs[1..]);
    }
  }

  // Within the state budget a snapshot fails only on a string too long to persist.
  lemma {:induction false} SizeCheckNeverFires(m: Module, state: seq<Value>)
    requires |state| <= MAX_U16 && (StableIds(m) ==> |m.stateIds| == |state|)
    requires StateSize(state) <= m.limits.maxStateBytes
    ensures SnapshotState(m, state).None? <==> exists i :: 0 <= i < |state| && !Persistable(state[i])
  {
    SnapshotExact(m, state);
    TotalsBound(state);
    StringsAreFields(state);
  }
}

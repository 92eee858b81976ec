/** Upgrading a module: exactly which states reach the new version and with which values,
    along chains of any length, and how large a restored state is. */
module Migration {
  import opened Basics
  import opened ByteCodec
  import opened Bytecode
  import opened StateCodec

  // A snapshot of one version restored into a fresh runtime of another.
  function Upgrade(from: Module, state: seq<Value>, to: Module): Option<seq<Value>>
    requires |state| <= MAX_U16 && (StableIds(from) ==> |from.stateIds| == |state|)
  {
    match SnapshotState(from, state)
    case None => None
    case Some(b) => RestoreState(to, to.initialState, b)
  }

  // -------- what an upgrade carries over --------

  // The value that a state holds under an ID.
  function Held(ids: seq<u64>, state: seq<Value>, id: u64): Option<Value>
    requires |ids| == |state|
  {
    if ids == [] then None
    else if ids[0] == id then Some(state[0])
    else Held(ids[1..], state[1..], id)
  }

  // With unique IDs each field is held under its own ID, and nothing else is.
  lemma {:induction false} HeldIs(ids: seq<u64>, state: seq<Value>, id: u64)
    requires |ids| == |state| && Distinct(ids)
    ensures forall i :: 0 <= i < |ids| && ids[i] == id ==> Held(ids, state, id) == Some(state[i])
    ensures id !in ids ==> Held(ids, state, id) == None
  {
    if ids == [] {
    } else {
      assert ids == [ids[0]] + ids[1..];
      DistinctConcat([ids[0]], ids[1..]);
      HeldIs(ids[1..], state[1..], id);
      assert forall i :: 0 < i < |ids| ==> ids[i] == ids[1..][i - 1] && state[i] == state[1..][i - 1];
    }
  }

  // Shared IDs keep their types.
  predicate TypesAgree(a: Module, state: seq<Value>, b: Module)
    requires |a.stateIds| == |state| && |b.stateIds| == |b.initialState|
  {
    forall j | 0 <= j < |b.stateIds| ::
      var v := Held(a.stateIds, state, b.stateIds[j]);
      v.Some? ==> TypeOf(v.value) == TypeOf(b.initialState[j])
  }

  // Both versions declare some ID.
  predicate Shares(a: Module, b: Module) {
    exists j | 0 <= j < |b.stateIds| :: b.stateIds[j] in a.stateIds
  }

  // The old value of every shared ID and the initial value of every other field.
  function CarryOver(a: Module, state: seq<Value>, b: Module): (r: seq<Value>)
    requires |a.stateIds| == |state| && |b.stateIds| == |b.initialState|
    ensures |r| == |b.initialState|
  {
    seq(|b.initialState|, j requires 0 <= j < |b.initialState| =>
      var v := Held(a.stateIds, state, b.stateIds[j]);
      if v.Some? then v.value else b.initialState[j])
  }

  // When an upgrade by identity goes through: the state can be saved, its persisted
  // total fits the new budget, and the IDs and types match.
  predicate UpgradeOk(a: Module, state: seq<Value>, b: Module)
    requires |a.stateIds| == |state|
  {
    && Savable(a, state) && RestoredTotal(state) <= b.limits.maxStateBytes
    && |b.stateIds| == |b.initialState| && TypesAgree(a, state, b)
    && (state == [] || b.stateIds == [] || Shares(a, b))
  }

  lemma {:induction false} EntriesOverBudget(m: Module, state: seq<Value>, k: nat, seen: map<u64, Value>,
                                             used: nat, budget: nat)
    requires StateOk(m) && StableIds(m) && k <= |state| == |m.stateIds|
    requires forall i :: 0 <= i < |state| ==> Persistable(state[i])
    requires used <= budget < used + RestoredTotal(state[k..])
    ensures RestoreEntries(|state| - k, seen, used, budget, FieldsFrom(m, state, k)) == Fail
    decreases |state| - k
  {
    hide GetValue, PutValue, Get64, Put64;
    if k == |state| {
    } else {
      FieldLayout(m, state, k);
      TotalStep(state, k);
      var id, v := m.stateIds[k], state[k];
      var rest := FieldsFrom(m, state, k + 1);
      if id !in seen && used + RestoredSize(v) <= budget {
        RestoreEntriesStep(|state| - k, seen, used, budget, FieldsFrom(m, state, k), id, PutValue(v) + rest, v, rest);
        EntriesOverBudget(m, state, k + 1, seen[id := v], used + RestoredSize(v), budget);
      }
    }
  }

  lemma {:induction false} PersistedFacts(a: Module, state: seq<Value>, b: Module, persisted: map<u64, Value>)
    requires StateOk(a) && StableIds(a) && |state| == |a.stateIds| && |b.stateIds| == |b.initialState|
    requires forall i :: 0 <= i < |state| ==> a.stateIds[i] in persisted && persisted[a.stateIds[i]] == state[i]
    requires forall x :: x in persisted ==> x in a.stateIds
    ensures Compatible(b, persisted) <==> TypesAgree(a, state, b)
    ensures AnyMatch(b, persisted) <==> Shares(a, b)
    ensures Migrated(b, persisted) == CarryOver(a, state, b)
  {
    forall j | 0 <= j < |b.stateIds|
      ensures Held(a.stateIds, state, b.stateIds[j])
           == if b.stateIds[j] in persisted then Some(persisted[b.stateIds[j]]) else None
      ensures b.stateIds[j] in persisted <==> b.stateIds[j] in a.stateIds
    {
      HeldIs(a.stateIds, state, b.stateIds[j]);
    }
  }

  // An upgrade from a version with stable IDs succeeds exactly when UpgradeOk says so,
  // whatever the budgets and whatever size the state has reached, and then carries over
  // every shared value.
  lemma {:induction false} UpgradeByIdentity(a: Module, state: seq<Value>, b: Module)
    requires StateOk(a) && StateOk(b) && StableIds(a) && |state| == |a.stateIds|
    ensures Upgrade(a, state, b) == if UpgradeOk(a, state, b) then Some(CarryOver(a, state, b)) else None
  {
    SnapshotExact(a, state);
    if Savable(a, state) {
      SavedByIdentity(a, state, b);
    }
  }

  lemma {:induction false} SavedByIdentity(a: Module, state: seq<Value>, b: Module)
    requires StateOk(a) && StateOk(b) && StableIds(a) && |state| == |a.stateIds| && Savable(a, state)
    ensures RestoreState(b, b.initialState, SnapshotBytes(a, state))
         == if UpgradeOk(a, state, b) then Some(CarryOver(a, state, b)) else None
  {
    SavablePersistable(a, state);
    hide Savable, CarryOver, TypesAgree, Shares, SnapshotBytes, RestoreState, RestoreV2, FieldsFrom, RestoredTotal;
    SavedHeader(a, state, b);
    if |b.stateIds| == |b.initialState| {
      SavedEntries(a, state, b);
    }
  }

  lemma {:induction false} SavedHeader(a: Module, state: seq<Value>, b: Module)
    requires StableIds(a) && |state| == |a.stateIds| <= 4096
    requires forall i :: 0 <= i < |state| ==> Persistable(state[i])
    ensures RestoreState(b, b.initialState, SnapshotBytes(a, state))
         == if |b.stateIds| == |b.initialState| then RestoreV2(b, |state|, FieldsFrom(a, state, 0)) else None
  {
    hide RestoreV1, RestoreV2, FieldsFrom, GetHeader, Put16, Put64;
    HeaderRoundTrip(2, a.stateSchema, |state|, FieldsFrom(a, state, 0));
  }

  lemma {:induction false} SavedEntries(a: Module, state: seq<Value>, b: Module)
    requires StateOk(a) && StableIds(a) && |state| == |a.stateIds| && |b.stateIds| == |b.initialState|
    requires forall i :: 0 <= i < |state| ==> Persistable(state[i])
    ensures RestoreV2(b, |state|, FieldsFrom(a, state, 0)) ==
      if RestoredTotal(state) <= b.limits.maxStateBytes && TypesAgree(a, state, b)
         && (state == [] || b.stateIds == [] || Shares(a, b))
      then Some(CarryOver(a, state, b)) else None
  {
    hide RestoreEntries, FieldsFrom, RestoredTotal, TypesAgree, Shares, CarryOver, Compatible, AnyMatch, Migrated, Stored;
    assert state[0..] == state;
    if RestoredTotal(state) > b.limits.maxStateBytes {
      EntriesOverBudget(a, state, 0, map[], 0, b.limits.maxStateBytes);
    } else {
      EntriesRoundTrip(a, state, 0, map[], 0, b.limits.maxStateBytes);
      StoredFinds(a.stateIds, state, 0, map[]);
      PersistedFacts(a, state, b, Stored(a.stateIds, state, 0, map[]));
    }
  }

  lemma {:induction false} SavablePersistable(m: Module, state: seq<Value>)
    requires Savable(m, state)
    ensures forall i :: 0 <= i < |state| ==> Persistable(state[i])
  {
  }

  // Every shared value is carried and every other field starts anew; the order of the
  // fields does not matter.
  lemma {:induction false} CarriedValues(a: Module, state: seq<Value>, b: Module)
    requires StateOk(a) && StableIds(a) && |state| == |a.stateIds| && |b.stateIds| == |b.initialState|
    ensures var next := CarryOver(a, state, b);
      && (forall i, j :: 0 <= i < |a.stateIds| && 0 <= j < |b.stateIds| && a.stateIds[i] == b.stateIds[j] ==>
            next[j] == state[i])
      && (forall j :: 0 <= j < |b.stateIds| && b.stateIds[j] !in a.stateIds ==> next[j] == b.initialState[j])
  {
    forall j | 0 <= j < |b.stateIds|
      ensures forall i :: 0 <= i < |a.stateIds| && a.stateIds[i] == b.stateIds[j] ==>
        Held(a.stateIds, state, b.stateIds[j]) == Some(state[i])
      ensures b.stateIds[j] !in a.stateIds ==> Held(a.stateIds, state, b.stateIds[j]) == None
    {
      HeldIs(a.stateIds, state, b.stateIds[j]);
    }
  }

  // -------- layout 1 --------

  // The layout-1 loop takes exactly the states of the expected types that fit the budget.
  lemma {:induction false} FieldsExact(m: Module, expected: seq<Value>, state: seq<Value>, k: nat, used: nat, budget: nat)
    requires !StableIds(m) && k <= |state| == |expected| && used <= budget
    requires forall i :: 0 <= i < |state| ==> Persistable(state[i])
    ensures RestoreFields(expected[k..], used, budget, FieldsFrom(m, state, k)) ==
      if (forall i :: k <= i < |state| ==> TypeOf(state[i]) == TypeOf(expected[i]))
         && used + RestoredTotal(state[k..]) <= budget
      then Done(state[k..], []) else Fail
    decreases |state| - k
  {
    hide GetValue, PutValue, Get64, Put64;
    if k == |state| {
      assert state[k..] == [];
    } else {
      FieldLayout(m, state, k);
      TotalStep(state, k);
      assert expected[k..][0] == expected[k] && expected[k..][1..] == expected[k + 1..];
      var size := RestoredSize(state[k]);
      if TypeOf(state[k]) == TypeOf(expected[k]) && used + size <= budget {
        FieldsExact(m, expected, state, k + 1, used + size, budget);
      }
    }
  }

  // Layout 1 restores into any version exactly when schema, types and budget allow it,
  // with every boolean counted as a single byte.
  lemma {:induction false} LayoutOneAccepts(a: Module, state: seq<Value>, b: Module)
    requires StateOk(b) && !StableIds(a) && |state| <= MAX_U16
    requires forall i :: 0 <= i < |state| ==> Persistable(state[i])
    ensures RestoreState(b, b.initialState, SnapshotBytes(a, state)) ==
      if a.stateSchema == b.stateSchema && TypesOf(state) == TypesOf(b.initialState)
         && RestoredTotal(state) <= b.limits.maxStateBytes
      then Some(state) else None
  {
    hide GetHeader, GetValue, PutValue, FieldsFrom, RestoreFields;
    HeaderRoundTrip(1, a.stateSchema, |state|, FieldsFrom(a, state, 0));
    assert state[0..] == state && b.initialState[0..] == b.initialState;
    SameTypesIff(state, b.initialState);
    if |state| == |b.initialState| {
      FieldsExact(a, b.initialState, state, 0, 0, b.limits.maxStateBytes);
    }
  }

  lemma {:induction false} SameTypesIff(a: seq<Value>, b: seq<Value>)
    ensures TypesOf(a) == TypesOf(b) <==> |a| == |b| && forall i :: 0 <= i < |a| ==> TypeOf(a[i]) == TypeOf(b[i])
  {
    if TypesOf(a) == TypesOf(b) {
      TypesPointwise(a, b);
    }
  }

  // An upgrade from a version without stable IDs, exactly.
  lemma {:induction false} UpgradeInOrder(a: Module, state: seq<Value>, b: Module)
    requires StateOk(b) && !StableIds(a) && |state| <= MAX_U16
    ensures Upgrade(a, state, b) ==
      if Savable(a, state) && a.stateSchema == b.stateSchema && TypesOf(state) == TypesOf(b.initialState)
         && RestoredTotal(state) <= b.limits.maxStateBytes
      then Some(state) else None
  {
    SnapshotExact(a, state);
    if Savable(a, state) {
      LayoutOneAccepts(a, state, b);
    }
  }

  // -------- chains --------

  // Every version of a chain is a well-formed module with stable IDs.
  ghost predicate Versions(ms: seq<Module>) {
    forall k :: 0 <= k < |ms| ==> StateOk(ms[k]) && StableIds(ms[k])
  }

  // Upgrading through all of ms in turn.
  function UpgradeAll(m: Module, state: seq<Value>, ms: seq<Module>): Option<seq<Value>>
    decreases |ms|
  {
    if ms == [] then Some(state)
    else if |state| != |m.stateIds| || |state| > 4096 then None
    else
      match Upgrade(m, state, ms[0])
      case None => None
      case Some(next) => UpgradeAll(ms[0], next, ms[1..])
  }

  // When a chain goes through, in terms of the versions and the first state alone.
  predicate ChainOk(m: Module, state: seq<Value>, ms: seq<Module>)
    requires |m.stateIds| == |state|
    decreases |ms|
  {
    ms == [] || (UpgradeOk(m, state, ms[0]) && ChainOk(ms[0], CarryOver(m, state, ms[0]), ms[1..]))
  }

  // The state at the end of a chain that goes through.
  function CarryAll(m: Module, state: seq<Value>, ms: seq<Module>): (r: seq<Value>)
    requires |m.stateIds| == |state| && ChainOk(m, state, ms)
    ensures ms != [] ==> |r| == |ms[|ms| - 1].initialState|
    decreases |ms|
  {
    if ms == [] then state else CarryAll(ms[0], CarryOver(m, state, ms[0]), ms[1..])
  }

  lemma {:induction false} VersionsTail(m: Module, ms: seq<Module>)
    requires Versions([m] + ms) && ms != []
    ensures StateOk(m) && StableIds(m) && StateOk(ms[0]) && StableIds(ms[0]) && Versions([ms[0]] + ms[1..])
  {
    var all := [m] + ms;
    assert all[0] == m && all[1] == ms[0];
    assert [ms[0]] + ms[1..] == all[1..];
  }

  // A chain of any length succeeds exactly when ChainOk says so, and ends in CarryAll.
  lemma {:induction false} ChainExact(m: Module, state: seq<Value>, ms: seq<Module>)
    requires Versions([m] + ms) && |state| == |m.stateIds|
    ensures UpgradeAll(m, state, ms) == if ChainOk(m, state, ms) then Some(CarryAll(m, state, ms)) else None
    decreases |ms|
  {
    if ms == [] {
    } else {
      VersionsTail(m, ms);
      hide UpgradeOk, CarryOver, Upgrade, Versions;
      UpgradeByIdentity(m, state, ms[0]);
      if UpgradeOk(m, state, ms[0]) {
        OkLengths(m, state, ms[0]);
        ChainExact(ms[0], CarryOver(m, state, ms[0]), ms[1..]);
      }
    }
  }

  lemma {:induction false} OkLengths(a: Module, state: seq<Value>, b: Module)
    requires |a.stateIds| == |state| && UpgradeOk(a, state, b)
    ensures |b.stateIds| == |b.initialState| == |CarryOver(a, state, b)|
  {
  }

  // However long the chain, an ID that every version declares keeps its value.
  lemma {:induction false} ChainKeepsData(m: Module, state: seq<Value>, ms: seq<Module>, id: u64)
    requires Versions([m] + ms) && |state| == |m.stateIds|
    requires forall k :: 0 <= k < |[m] + ms| ==> id in ([m] + ms)[k].stateIds
    requires UpgradeAll(m, state, ms).Some?
    ensures var last := ([m] + ms)[|ms|];
      && |UpgradeAll(m, state, ms).value| == |last.stateIds|
      && Held(last.stateIds, UpgradeAll(m, state, ms).value, id) == Held(m.stateIds, state, id)
    decreases |ms|
  {
    var all := [m] + ms;
    assert all[0] == m;
    if ms == [] {
    } else {
      VersionsTail(m, ms);
      assert all[1] == ms[0] && all[1..] == [ms[0]] + ms[1..];
      assert id in all[0].stateIds && id in all[1].stateIds;
      StepKeepsValue(m, state, ms[0], id);
      hide UpgradeOk, CarryOver, Upgrade, Held, Versions;
      UpgradeByIdentity(m, state, ms[0]);
      var next := CarryOver(m, state, ms[0]);
      forall k | 0 <= k < |[ms[0]] + ms[1..]| ensures id in ([ms[0]] + ms[1..])[k].stateIds {
        assert ([ms[0]] + ms[1..])[k] == all[k + 1];
      }
      ChainKeepsData(ms[0], next, ms[1..], id);
      assert ([ms[0]] + ms[1..])[|ms[1..]|] == all[|ms|];
    }
  }

  lemma {:induction false} StepKeepsValue(a: Module, state: seq<Value>, b: Module, id: u64)
    requires StateOk(a) && StateOk(b) && StableIds(a) && StableIds(b) && |state| == |a.stateIds|
    requires id in a.stateIds && id in b.stateIds
    ensures Held(b.stateIds, CarryOver(a, state, b), id) == Held(a.stateIds, state, id)
  {
    var i :| 0 <= i < |a.stateIds| && a.stateIds[i] == id;
    var j :| 0 <= j < |b.stateIds| && b.stateIds[j] == id;
    HeldIs(a.stateIds, state, id);
    HeldIs(b.stateIds, CarryOver(a, state, b), id);
  }

  // -------- how large a restored state can be --------

  lemma {:induction false} FieldsBound(expected: seq<Value>, used: nat, budget: nat, b: Bytes)
    requires RestoreFields(expected, used, budget, b).Done? && used <= budget
    ensures var vs := RestoreFields(expected, used, budget, b).value;
      TypesOf(vs) == TypesOf(expected) && used + RestoredTotal(vs) <= budget
    decreases |expected|
  {
    hide GetValue, TypesOf;
    if expected == [] {
      assert RestoreFields(expected, used, budget, b).value == expected;
    } else {
      var v := GetValue(b).value;
      FieldsBound(expected[1..], used + RestoredSize(v), budget, GetValue(b).rest);
      var vs := RestoreFields(expected[1..], used + RestoredSize(v), budget, GetValue(b).rest).value;
      assert ([v] + vs)[1..] == vs && [expected[0]] + expected[1..] == expected;
      TypesOfCons(v, vs);
      TypesOfCons(expected[0], expected[1..]);
    }
  }

  lemma {:induction false} TypesOfCons(v: Value, vs: seq<Value>)
    ensures TypesOf([v] + vs) == [TypeOf(v)] + TypesOf(vs)
  {
  }

  // Sizes of the fields that take a persisted value.
  function MatchedSize(ids: seq<u64>, persisted: map<u64, Value>): nat {
    if ids == [] then 0
    else (if ids[0] in persisted then RestoredSize(persisted[ids[0]]) else 0) + MatchedSize(ids[1..], persisted)
  }

  lemma {:induction false} MatchedGrows(ids: seq<u64>, persisted: map<u64, Value>, id: u64, v: Value)
    requires Distinct(ids) && id !in persisted
    ensures MatchedSize(ids, persisted[id := v]) <= MatchedSize(ids, persisted) + RestoredSize(v)
    ensures id !in ids ==> MatchedSize(ids, persisted[id := v]) == MatchedSize(ids, persisted)
  {
    if ids == [] {
    } else {
      assert ids == [ids[0]] + ids[1..];
      DistinctConcat([ids[0]], ids[1..]);
      MatchedGrows(ids[1..], persisted, id, v);
      assert ids[0] in [ids[0]];
    }
  }

  lemma {:induction false} EntriesBound(ids: seq<u64>, count: nat, seen: map<u64, Value>, used: nat, budget: nat,
      b: Bytes)
    requires Distinct(ids) && MatchedSize(ids, seen) <= used <= budget
    requires RestoreEntries(count, seen, used, budget, b).Done?
    ensures MatchedSize(ids, RestoreEntries(count, seen, used, budget, b).value) <= budget
    decreases count
  {
    hide GetValue, Get64;
    if count == 0 {
    } else {
      var id, v := Get64(b).value, GetValue(Get64(b).rest).value;
      MatchedGrows(ids, seen, id, v);
      EntriesBound(ids, count - 1, seen[id := v], used + RestoredSize(v), budget, GetValue(Get64(b).rest).rest);
    }
  }

  lemma {:induction false} PickedTotal(ids: seq<u64>, initial: seq<Value>, persisted: map<u64, Value>, vs: seq<Value>)
    requires |ids| == |initial| == |vs|
    requires forall i :: 0 <= i < |ids| ==> vs[i] == Pick(ids[i], initial[i], persisted)
    ensures RestoredTotal(vs) <= MatchedSize(ids, persisted) + StateSize(initial)
  {
    if ids == [] {
    } else {
      PickedTotal(ids[1..], initial[1..], persisted, vs[1..]);
      assert vs[0] == Pick(ids[0], initial[0], persisted);
    }
  }

  // A restored state has the module's types; layout 1 may exceed the budget by seven
  // bytes for each boolean, layout 2 by a second budget as well.
  lemma {:induction false} RestoredStateBound(m: Module, b: Bytes)
    requires StateOk(m) && StateSize(m.initialState) <= m.limits.maxStateBytes
    requires RestoreState(m, m.initialState, b).Some?
    ensures var s, budget := RestoreState(m, m.initialState, b).value, m.limits.maxStateBytes;
      && TypesOf(s) == TypesOf(m.initialState)
      && (GetHeader(b).value.version == 1 ==> StateSize(s) <= budget + 7 * BoolCount(s))
      && StateSize(s) <= 2 * budget + 7 * BoolCount(s)
  {
    hide GetHeader;
    var s := RestoreState(m, m.initialState, b).value;
    var h, rest := GetHeader(b).value, GetHeader(b).rest;
    TotalsBound(s);
    if h.version == 1 {
      FieldsBound(m.initialState, 0, m.limits.maxStateBytes, rest);
    } else {
      var persisted := RestoreEntries(h.count, map[], 0, m.limits.maxStateBytes, rest).value;
      assert MatchedSize(m.stateIds, map[]) == 0 by { NothingMatched(m.stateIds); }
      if StableIds(m) {
        EntriesBound(m.stateIds, h.count, map[], 0, m.limits.maxStateBytes, rest);
      }
      PickedTotal(m.stateIds, m.initialState, persisted, s);
      forall i | 0 <= i < |s| ensures TypeOf(s[i]) == TypeOf(m.initialState[i]) {
      }
    }
  }

  lemma {:induction false} NothingMatched(ids: seq<u64>)
    ensures MatchedSize(ids, map[]) == 0
  {
    if ids == [] {
    } else {
      NothingMatched(ids[1..]);
    }
  }

  // -------- when a restored state is within the budget --------

  lemma {:induction false} ValueConsumed(b: Bytes)
    requires GetValue(b).Done?
    ensures var v, rest := GetValue(b).value, GetValue(b).rest;
      |b| == |rest| + 1 + RestoredSize(v) + (if v.StringValue? then 2 else 0)
  {
  }

  lemma {:induction false} FieldsConsumed(expected: seq<Value>, used: nat, budget: nat, b: Bytes)
    requires RestoreFields(expected, used, budget, b).Done?
    ensures var vs, rest := RestoreFields(expected, used, budget, b).value, RestoreFields(expected, used, budget, b).rest;
      && |vs| == |expected| && BoolCount(vs) == BoolCount(expected)
      && |b| == |rest| + |expected| + RestoredTotal(vs) + 2 * StringCount(expected)
    decreases |expected|
  {
    hide GetValue;
    if expected == [] {
    } else {
      var v := GetValue(b).value;
      ValueConsumed(b);
      FieldsConsumed(expected[1..], used + RestoredSize(v), budget, GetValue(b).rest);
      var vs := RestoreFields(expected[1..], used + RestoredSize(v), budget, GetValue(b).rest).value;
      assert ([v] + vs)[1..] == vs;
    }
  }

  lemma {:induction false} HeaderConsumed(b: Bytes)
    requires GetHeader(b).Done?
    ensures |b| == 16 + |GetHeader(b).rest|
  {
  }

  // Layout 1: an accepted snapshot keeps the budget exactly when its length says so.
  lemma {:induction false} LayoutOneWithinBudget(m: Module, b: Bytes)
    requires RestoreState(m, m.initialState, b).Some? && GetHeader(b).value.version == 1
    ensures var s, initial := RestoreState(m, m.initialState, b).value, m.initialState;
      StateSize(s) <= m.limits.maxStateBytes <==>
        |b| + 7 * BoolCount(initial) <= m.limits.maxStateBytes + 16 + |initial| + 2 * StringCount(initial)
  {
    hide GetHeader;
    HeaderConsumed(b);
    FieldsConsumed(m.initialState, 0, m.limits.maxStateBytes, GetHeader(b).rest);
    TotalsBound(RestoreState(m, m.initialState, b).value);
  }

  // The IDs of a layout-2 snapshot, in the order of its bytes.
  function EntryIds(count: nat, b: Bytes): seq<u64> {
    match Get64(b)
    case Fail => []
    case Done(id, afterId) =>
      match GetValue(afterId)
      case Fail => []
      case Done(_, rest) => if count == 0 then [] else [id] + EntryIds(count - 1, rest)
  }

  // The running sizes of the entries that a module declares.
  function DeclaredSize(ids: seq<u64>, count: nat, b: Bytes): nat {
    match Get64(b)
    case Fail => 0
    case Done(id, afterId) =>
      match GetValue(afterId)
      case Fail => 0
      case Done(v, rest) =>
        if count == 0 then 0 else (if id in ids then ValueSize(v) else 0) + DeclaredSize(ids, count - 1, rest)
  }

  // The sizes of the initial values that no entry replaces.
  function FreshSize(ids: seq<u64>, initial: seq<Value>, present: seq<u64>): nat
    requires |ids| == |initial|
  {
    if ids == [] then 0
    else (if ids[0] in present then 0 else ValueSize(initial[0])) + FreshSize(ids[1..], initial[1..], present)
  }

  function ArrivedSize(ids: seq<u64>, persisted: map<u64, Value>): nat {
    if ids == [] then 0
    else (if ids[0] in persisted then ValueSize(persisted[ids[0]]) else 0) + ArrivedSize(ids[1..], persisted)
  }

  lemma {:induction false} ArrivedGrows(ids: seq<u64>, persisted: map<u64, Value>, id: u64, v: Value)
    requires Distinct(ids) && id !in persisted
    ensures ArrivedSize(ids, persisted[id := v])
         == ArrivedSize(ids, persisted) + (if id in ids then ValueSize(v) else 0)
  {
    if ids == [] {
    } else {
      assert ids == [ids[0]] + ids[1..];
      DistinctConcat([ids[0]], ids[1..]);
      ArrivedGrows(ids[1..], persisted, id, v);
      assert ids[0] in [ids[0]];
    }
  }

  lemma {:induction false} NothingArrived(ids: seq<u64>)
    ensures ArrivedSize(ids, map[]) == 0
  {
    if ids == [] {
    } else {
      NothingArrived(ids[1..]);
    }
  }

  lemma {:induction false} EntriesArrive(ids: seq<u64>, count: nat, seen: map<u64, Value>, used: nat, budget: nat,
      b: Bytes)
    requires Distinct(ids) && RestoreEntries(count, seen, used, budget, b).Done?
    ensures var persisted := RestoreEntries(count, seen, used, budget, b).value;
      && ArrivedSize(ids, persisted) == ArrivedSize(ids, seen) + DeclaredSize(ids, count, b)
      && forall x :: x in persisted <==> x in seen || x in EntryIds(count, b)
    decreases count
  {
    hide GetValue, Get64, ArrivedSize;
    if count == 0 {
    } else {
      var id, v := Get64(b).value, GetValue(Get64(b).rest).value;
      ArrivedGrows(ids, seen, id, v);
      EntriesArrive(ids, count - 1, seen[id := v], used + RestoredSize(v), budget, GetValue(Get64(b).rest).rest);
    }
  }

  lemma {:induction false} PickedSize(ids: seq<u64>, initial: seq<Value>, persisted: map<u64, Value>,
                                      present: seq<u64>, vs: seq<Value>)
    requires |ids| == |initial| == |vs|
    requires forall i :: 0 <= i < |ids| ==> vs[i] == Pick(ids[i], initial[i], persisted)
    requires forall x :: x in persisted <==> x in present
    ensures StateSize(vs) == ArrivedSize(ids, persisted) + FreshSize(ids, initial, present)
  {
    if ids == [] {
    } else {
      PickedSize(ids[1..], initial[1..], persisted, present, vs[1..]);
      assert vs[0] == Pick(ids[0], initial[0], persisted);
    }
  }

  // Layout 2: an accepted snapshot keeps the budget exactly when the entries that the
  // module declares and the initial values that no entry replaces fit it together.
  lemma {:induction false} LayoutTwoWithinBudget(m: Module, b: Bytes)
    requires StateOk(m) && RestoreState(m, m.initialState, b).Some? && GetHeader(b).value.version == 2
    ensures var s, count, rest := RestoreState(m, m.initialState, b).value, GetHeader(b).value.count, GetHeader(b).rest;
      StateSize(s) <= m.limits.maxStateBytes <==>
        DeclaredSize(m.stateIds, count, rest) + FreshSize(m.stateIds, m.initialState, EntryIds(count, rest))
          <= m.limits.maxStateBytes
  {
    hide GetHeader;
    var s, count, rest := RestoreState(m, m.initialState, b).value, GetHeader(b).value.count, GetHeader(b).rest;
    assert Distinct(m.stateIds);
    EntriesArrive(m.stateIds, count, map[], 0, m.limits.maxStateBytes, rest);
    NothingArrived(m.stateIds);
    var persisted := RestoreEntries(count, map[], 0, m.limits.maxStateBytes, rest).value;
    PickedSize(m.stateIds, m.initialState, persisted, EntryIds(count, rest), s);
  }

  // What a caller can check on the bytes of a snapshot before restoring it.
  predicate KeepsBudget(m: Module, b: Bytes) {
    match GetHeader(b)
    case Fail => true
    case Done(h, rest) =>
      var max, initial := m.limits.maxStateBytes, m.initialState;
      if h.version == 1 then |b| + 7 * BoolCount(initial) <= max + 16 + |initial| + 2 * StringCount(initial)
      else if |m.stateIds| != |initial| then true
      else DeclaredSize(m.stateIds, h.count, rest) + FreshSize(m.stateIds, initial, EntryIds(h.count, rest)) <= max
  }

  // Of all the snapshots that a module accepts, exactly these leave it within its budget.
  lemma {:induction false} RestoredWithinBudget(m: Module, b: Bytes)
    requires StateOk(m) && RestoreState(m, m.initialState, b).Some?
    ensures StateSize(RestoreState(m, m.initialState, b).value) <= m.limits.maxStateBytes <==> KeepsBudget(m, b)
  {
    hide GetHeader, DeclaredSize, FreshSize, EntryIds;
    if GetHeader(b).value.version == 1 {
      LayoutOneWithinBudget(m, b);
    } else {
      LayoutTwoWithinBudget(m, b);
    }
  }

  // The sizes of the old fields that the new version declares as well.
  function SharedSize(ids: seq<u64>, state: seq<Value>, declared: seq<u64>): nat
    requires |ids| == |state|
  {
    if ids == [] then 0
    else (if ids[0] in declared then ValueSize(state[0]) else 0) + SharedSize(ids[1..], state[1..], declared)
  }

  lemma {:induction false} StoredArrives(declared: seq<u64>, ids: seq<u64>, state: seq<Value>, k: nat,
                                         seen: map<u64, Value>)
    requires k <= |state| == |ids| && Distinct(declared) && Distinct(ids)
    requires forall i :: k <= i < |ids| ==> ids[i] !in seen
    ensures ArrivedSize(declared, Stored(ids, state, k, seen))
         == ArrivedSize(declared, seen) + SharedSize(ids[k..], state[k..], declared)
    decreases |state| - k
  {
    hide ArrivedSize;
    if k == |state| {
    } else {
      ArrivedGrows(declared, seen, ids[k], state[k]);
      StoredArrives(declared, ids, state, k + 1, seen[ids[k] := state[k]]);
      assert ids[k..][1..] == ids[k + 1..] && state[k..][1..] == state[k + 1..];
    }
  }

  // What an upgrade by identity costs: the shared values and the new fields, however the
  // two versions order them.
  lemma {:induction false} CarriedSize(a: Module, state: seq<Value>, b: Module)
    requires StateOk(a) && StateOk(b) && StableIds(a) && |state| == |a.stateIds|
    requires |b.stateIds| == |b.initialState|
    ensures StateSize(CarryOver(a, state, b))
         == SharedSize(a.stateIds, state, b.stateIds) + FreshSize(b.stateIds, b.initialState, a.stateIds)
  {
    var persisted := Stored(a.stateIds, state, 0, map[]);
    StoredFinds(a.stateIds, state, 0, map[]);
    PersistedFacts(a, state, b, persisted);
    assert Distinct(b.stateIds);
    StoredArrives(b.stateIds, a.stateIds, state, 0, map[]);
    NothingArrived(b.stateIds);
    assert a.stateIds[0..] == a.stateIds && state[0..] == state;
    hide CarryOver;
    PickedSize(b.stateIds, b.initialState, persisted, a.stateIds, Migrated(b, persisted));
  }

  // A saved state that its module accepts back comes back as it was; the length of its
  // snapshot tells beforehand whether it is within the budget, in both layouts.
  lemma {:induction false} OwnSnapshotWithinBudget(m: Module, state: seq<Value>)
    requires StateOk(m) && |state| == |m.initialState| && SnapshotState(m, state).Some?
    requires RestoreState(m, m.initialState, SnapshotState(m, state).value).Some?
    ensures RestoreState(m, m.initialState, SnapshotState(m, state).value) == Some(state)
    ensures StateSize(state) <= m.limits.maxStateBytes <==>
      |SnapshotState(m, state).value| + 7 * BoolCount(state)
        <= m.limits.maxStateBytes + 16 + Overhead(m) * |state| + 2 * StringCount(state)
  {
    hide SnapshotState, RestoreState, Savable, SnapshotBytes;
    SnapshotExact(m, state);
    SavablePersistable(m, state);
    SnapshotLength(m, state);
    TotalsBound(state);
    if StableIds(m) {
      SavedByIdentity(m, state, m);
      CarriedValues(m, state, m);
      hide CarryOver;
      assert CarryOver(m, state, m) == state;
    } else {
      LayoutOneAccepts(m, state, m);
    }
  }

  // -------- the budget is really exceeded --------

  lemma {:induction false} TwoFields(a: Value, b: Value)
    ensures StateSize([a, b]) == ValueSize(a) + ValueSize(b)
    ensures RestoredTotal([a, b]) == RestoredSize(a) + RestoredSize(b)
  {
    assert [a, b][1..] == [b] && [b][1..] == [];
    assert StateSize([b]) == ValueSize(b) && RestoredTotal([b]) == RestoredSize(b);
  }

  // Layout 1: every budget from 8 to 65536 accepts a state of seven bytes more.
  lemma {:induction false} LayoutOneExceeds(m: Module)
    requires StateOk(m) && !StableIds(m) && 8 <= m.limits.maxStateBytes <= 0x1_0000
    requires m.initialState == [BoolValue(false), StringValue([])]
    ensures StateSize(m.initialState) <= m.limits.maxStateBytes
    ensures exists b: Bytes, s: seq<Value> ::
      RestoreState(m, m.initialState, b) == Some(s) && StateSize(s) == m.limits.maxStateBytes + 7
  {
    var text: Bytes := seq(m.limits.maxStateBytes - 1, _ => 0);
    var s := [BoolValue(true), StringValue(text)];
    TwoFields(s[0], s[1]);
    TwoFields(BoolValue(false), StringValue([]));
    assert TypesOf(s) == TypesOf(m.initialState);
    hide RestoreState, SnapshotBytes, TypesOf;
    LayoutOneAccepts(m, s, m);
    assert RestoreState(m, m.initialState, SnapshotBytes(m, s)) == Some(s);
  }

  // Layout 2: whatever the budget, adding a field whose initial value fills it to a state
  // that fills it too leaves twice the budget, and a state that cannot be saved.
  lemma {:induction false} LayoutTwoExceeds(a: Module, b: Module, full: Value)
    requires StateOk(a) && StateOk(b) && StableIds(a) && StableIds(b)
    requires a.stateIds == [1] && a.initialState == [StringValue([])]
    requires b.stateIds == [1, 2] && b.initialState == [StringValue([]), full]
    requires full.StringValue? && 0 < |full.s| <= MAX_U16
    requires a.limits.maxStateBytes == b.limits.maxStateBytes == |full.s|
    ensures StateSize([full]) == StateSize(b.initialState) == b.limits.maxStateBytes
    ensures Upgrade(a, [full], b) == Some([full, full])
    ensures StateSize([full, full]) == 2 * b.limits.maxStateBytes
    ensures SnapshotState(b, [full, full]) == None
  {
    OneField(full);
    TwoFields(full, full);
    TwoFields(StringValue([]), full);
    TwoStrings(full, full);
    FieldAdded(a, b, full);
    hide CarryOver, UpgradeOk, Upgrade, SnapshotState;
    UpgradeByIdentity(a, [full], b);
    SnapshotExact(b, [full, full]);
  }

  lemma {:induction false} TwoStrings(a: Value, b: Value)
    requires a.StringValue? && b.StringValue?
    ensures StringCount([a, b]) == 2
  {
    assert [a, b][1..] == [b];
    assert StringCount([b]) == 1;
  }

  lemma {:induction false} FieldAdded(a: Module, b: Module, v: Value)
    requires a.stateIds == [1] && b.stateIds == [1, 2] && StableIds(a)
    requires v.StringValue? && b.initialState == [StringValue([]), v]
    requires Savable(a, [v]) && RestoredTotal([v]) <= b.limits.maxStateBytes
    ensures UpgradeOk(a, [v], b) && CarryOver(a, [v], b) == [v, v]
  {
    assert Held([1], [v], 1) == Some(v);
    assert Held([1], [v], 2) == None;
    assert b.stateIds[0] == 1 && b.stateIds[1] == 2 && b.stateIds[0] in a.stateIds;
    assert CarryOver(a, [v], b) == [v, v];
  }

  lemma {:induction false} OneField(v: Value)
    ensures StateSize([v]) == ValueSize(v) && RestoredTotal([v]) == RestoredSize(v)
    ensures StringCount([v]) == if v.StringValue? then 1 else 0
  {
  }
}

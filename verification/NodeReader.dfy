/** read_node: one recursive pass that parses a UI tree while counting its nodes and
    collecting their IDs, proved to accept exactly the trees whose IDs are new and
    whose number is within the budget. */
module NodeReader {
  import opened Basics
  import opened ByteCodec
  import opened Codecs
  import opened Bytecode
  import opened Elements
  import opened Format
  import opened PayloadReader
  import opened PayloadRoundTrip

  // -------- properties and events --------

  method ReadSegment(reader: Reader, m: Module) returns (r: Option<Segment>)
    requires reader.Valid()
    modifies reader
    ensures reader.Valid() && Took(r, GetSegment(m, old(reader.Rest())), reader.Rest())
  {
    hide Get16;
    var kind := reader.U8();
    if kind.None? {
      return None;
    }
    var index := reader.U16();
    if index.None? {
      return None;
    }
    if kind.value == 1 && index.value < |m.constants| {
      return Some(ConstantText(index.value));
    }
    if kind.value == 2 && index.value < |m.initialState| {
      return Some(StateText(index.value));
    }
    return None;
  }

  function SegmentsC(m: Module): Codec<seq<Segment>> {
    Only(Counted(Count16(), SegmentC(m)), (ss: seq<Segment>) => 0 < |ss| <= 1024)
  }

  method ReadSegments(reader: Reader, m: Module) returns (r: Option<seq<Segment>>)
    requires reader.Valid()
    modifies reader
    ensures reader.Valid() && Took(r, SegmentsC(m).get(old(reader.Rest())), reader.Rest())
  {
    hide Get16, GetSegment;
    var count := reader.U16();
    if count.None? {
      return None;
    }
    ghost var whole := GetAll(SegmentC(m), count.value, reader.Rest());
    if whole.Done? {
      ListLength(SegmentC(m), count.value, reader.Rest());
    }
    if count.value == 0 || count.value > 1024 {
      return None;
    }
    ListStart(whole);
    var segments: seq<Segment> := [];
    for i := 0 to count.value
      invariant reader.Valid() && whole == Resumed(segments, GetAll(SegmentC(m), count.value - i, reader.Rest()))
    {
      ListStep(SegmentC(m), count.value - i, segments, reader.Rest());
      var segment := ReadSegment(reader, m);
      if segment.None? {
        return None;
      }
      segments := segments + [segment.value];
    }
    ListEnd(SegmentC(m), segments, reader.Rest());
    r := Some(segments);
  }

  // A property is its key and its segments.
  lemma {:induction false} PropertyGet(m: Module, b: Bytes)
    ensures PropertyC(m).get(b) ==
      match GetKey(b)
      case Fail => Fail
      case Done(key, rest) =>
        match SegmentsC(m).get(rest) case Fail => Fail case Done(ss, r) => Done(PropertyExpression(key, ss), r)
  {
    hide Counted, SegmentC;
  }

  // Elements already read stay in the list; one that repeats refuses it.
  lemma {:induction false} RepeatedKey(ps: seq<PropertyExpression>, p: PropertyExpression,
      rest: seq<PropertyExpression>)
    requires p.key in Keys(ps)
    ensures !Distinct(Keys(ps + ([p] + rest)))
  {
    var all := ps + ([p] + rest);
    var i :| 0 <= i < |Keys(ps)| && Keys(ps)[i] == p.key;
    assert Keys(all)[i] == all[i].key == Keys(all)[|ps|];
  }

  method ReadProperties(reader: Reader, m: Module, count: u16) returns (r: Option<seq<PropertyExpression>>)
    requires reader.Valid()
    modifies reader
    ensures reader.Valid()
    ensures var p := GetAll(PropertyC(m), count, old(reader.Rest()));
      && (r.Some? <==> p.Done? && Distinct(Keys(p.value)))
      && (r.Some? ==> r.value == p.value && reader.Rest() == p.rest)
  {
    hide GetKey, PropertyC, SegmentsC;
    ghost var whole := GetAll(PropertyC(m), count, reader.Rest());
    ListStart(whole);
    var properties: seq<PropertyExpression> := [];
    var keys: set<PropertyKey> := {};
    for i := 0 to count
      invariant reader.Valid() && whole == Resumed(properties, GetAll(PropertyC(m), count - i, reader.Rest()))
      invariant Distinct(Keys(properties)) && forall k: PropertyKey :: k in keys <==> k in Keys(properties)
    {
      PropertyGet(m, reader.Rest());
      ListStep(PropertyC(m), count - i, properties, reader.Rest());
      ghost var before := reader.Rest();
      var key := ReadKey(reader);
      if key.None? {
        return None;
      }
      if key.value in keys {
        if whole.Done? {
          var p := PropertyC(m).get(before);
          RepeatedKey(properties, p.value, GetAll(PropertyC(m), count - i - 1, p.rest).value);
          assert whole.value == properties + ([p.value] + GetAll(PropertyC(m), count - i - 1, p.rest).value);
        }
        return None;
      }
      keys := keys + {key.value};
      var segments := ReadSegments(reader, m);
      if segments.None? {
        return None;
      }
      KeysGrow(properties, PropertyExpression(key.value, segments.value));
      properties := properties + [PropertyExpression(key.value, segments.value)];
    }
    ListEnd(PropertyC(m), properties, reader.Rest());
    r := Some(properties);
  }

  method ReadKey(reader: Reader) returns (r: Option<PropertyKey>)
    requires reader.Valid()
    modifies reader
    ensures reader.Valid() && Took(r, GetKey(old(reader.Rest())), reader.Rest())
  {
    var raw := reader.U8();
    return if raw.Some? && 1 <= raw.value <= 6 then Some(raw.value) else None;
  }

  lemma {:induction false} KeysGrow(ps: seq<PropertyExpression>, p: PropertyExpression)
    ensures Keys(ps + [p]) == Keys(ps) + [p.key]
    ensures Distinct(Keys(ps)) && p.key !in Keys(ps) ==> Distinct(Keys(ps + [p]))
  {
    assert Keys(ps + [p]) == Keys(ps) + [p.key];
    DistinctConcat(Keys(ps), [p.key]);
  }

  // What read_node demands of a node's bindings.
  ghost predicate BindingsOk(m: Module, bs: seq<EventBinding>) {
    Distinct(EventsOf(bs)) && forall i :: 0 <= i < |bs| ==> bs[i].handler < |m.handlers|
  }

  lemma {:induction false} RefusedBinding(m: Module, bs: seq<EventBinding>, b: EventBinding, rest: seq<EventBinding>)
    requires b.event in EventsOf(bs) || b.handler >= |m.handlers|
    ensures !BindingsOk(m, bs + ([b] + rest))
  {
    var all := bs + ([b] + rest);
    assert all[|bs|] == b;
    if b.event in EventsOf(bs) {
      var i :| 0 <= i < |EventsOf(bs)| && EventsOf(bs)[i] == b.event;
      assert EventsOf(all)[i] == all[i].event == EventsOf(all)[|bs|];
    }
  }

  lemma {:induction false} BindingsGrow(m: Module, bs: seq<EventBinding>, b: EventBinding)
    ensures EventsOf(bs + [b]) == EventsOf(bs) + [b.event]
    ensures BindingsOk(m, bs) && b.event !in EventsOf(bs) && b.handler < |m.handlers| ==> BindingsOk(m, bs + [b])
  {
    assert EventsOf(bs + [b]) == EventsOf(bs) + [b.event];
    DistinctConcat(EventsOf(bs), [b.event]);
  }

  lemma {:induction false} BindingGet(b: Bytes)
    ensures BindingC().get(b) ==
      match GetEventType(b)
      case Fail => Fail
      case Done(event, rest) =>
        match Get16(rest) case Fail => Fail case Done(h, r) => Done(EventBinding(event, h), r)
  {
    hide Get16;
  }

  method ReadBindings(reader: Reader, m: Module, count: u16) returns (r: Option<seq<EventBinding>>)
    requires reader.Valid()
    modifies reader
    ensures reader.Valid()
    ensures var p := GetAll(BindingC(), count, old(reader.Rest()));
      && (r.Some? <==> p.Done? && BindingsOk(m, p.value))
      && (r.Some? ==> r.value == p.value && reader.Rest() == p.rest)
  {
    hide GetEventType, BindingC, Get16, BindingsOk;
    ghost var whole := GetAll(BindingC(), count, reader.Rest());
    ListStart(whole);
    var bindings: seq<EventBinding> := [];
    var events: set<EventType> := {};
    NoBindings(m);
    for i := 0 to count
      invariant reader.Valid() && whole == Resumed(bindings, GetAll(BindingC(), count - i, reader.Rest()))
      invariant BindingsOk(m, bindings) && forall e: EventType :: e in events <==> e in EventsOf(bindings)
    {
      BindingGet(reader.Rest());
      ListStep(BindingC(), count - i, bindings, reader.Rest());
      ghost var before := reader.Rest();
      var event := ReadEventType(reader);
      if event.None? {
        return None;
      }
      var handler := reader.U16();
      if handler.None? {
        return None;
      }
      var binding := EventBinding(event.value, handler.value);
      if handler.value >= |m.handlers| || event.value in events {
        if whole.Done? {
          var rest := GetAll(BindingC(), count - i - 1, BindingC().get(before).rest).value;
          RefusedBinding(m, bindings, binding, rest);
          assert whole.value == bindings + ([binding] + rest);
        }
        return None;
      }
      events := events + {event.value};
      BindingsGrow(m, bindings, binding);
      bindings := bindings + [binding];
    }
    ListEnd(BindingC(), bindings, reader.Rest());
    r := Some(bindings);
  }

  lemma {:induction false} NoBindings(m: Module)
    ensures BindingsOk(m, [])
  {
  }

  method ReadEventType(reader: Reader) returns (r: Option<EventType>)
    requires reader.Valid()
    modifies reader
    ensures reader.Valid() && Took(r, GetEventType(old(reader.Rest())), reader.Rest())
  {
    var raw := reader.U8();
    return if raw.Some? && 1 <= raw.value <= 4 then Some(raw.value) else None;
  }

  // -------- one node, without its children --------

  lemma {:induction false} LocalGet(m: Module, b: Bytes)
    ensures LocalC(m).get(b) ==
      match GetNodeType(b)
      case Fail => Fail
      case Done(kind, b1) =>
        match Get32(b1)
        case Fail => Fail
        case Done(id, b2) => GetLocalLists(m, kind, id, b2)
  {
    hide Get32, Counted, PropertyC, BindingC, LocalOk;
  }

  ghost function GetLocalLists(m: Module, kind: NodeType, id: u32, b: Bytes): Parsed<Local> {
    match Counted(Count16(), PropertyC(m)).get(b)
    case Fail => Fail
    case Done(ps, rest) =>
      match Counted(Count16(), BindingC()).get(rest)
      case Fail => Fail
      case Done(bs, r) => if LocalOk(m, Local(kind, id, ps, bs)) then Done(Local(kind, id, ps, bs), r) else Fail
  }

  lemma {:induction false} PropertyAccepted(m: Module, p: PropertyExpression)
    requires PropertyC(m).ok(p)
    ensures PropertyOk(m, p)
  {
    assert AllOk(SegmentC(m), p.segments);
  }

  lemma {:induction false} CountedOk<T>(c: Codec<T>, xs: seq<T>)
    requires Counted(Count16(), c).ok(xs)
    ensures |xs| <= MAX_U16 && AllOk(c, xs)
  {
  }

  lemma {:induction false} PropertiesParsed(m: Module, b: Bytes)
    requires Counted(Count16(), PropertyC(m)).get(b).Done?
    ensures var ps := Counted(Count16(), PropertyC(m)).get(b).value;
      |ps| <= MAX_U16 && forall i :: 0 <= i < |ps| ==> PropertyOk(m, ps[i])
  {
    PartsLawful(m);
    Count16Lawful();
    hide Counted, PropertyC, Count16, Lawful, PropertyOk;
    CountedLawful(Count16(), PropertyC(m));
    Read(Counted(Count16(), PropertyC(m)), b);
    var ps := Counted(Count16(), PropertyC(m)).get(b).value;
    CountedOk(PropertyC(m), ps);
    forall i | 0 <= i < |ps| ensures PropertyOk(m, ps[i]) {
      PropertyAccepted(m, ps[i]);
    }
  }

  lemma {:induction false} BindingsParsed(m: Module, b: Bytes)
    requires Counted(Count16(), BindingC()).get(b).Done?
    ensures |Counted(Count16(), BindingC()).get(b).value| <= MAX_U16
  {
    PartsLawful(m);
    Count16Lawful();
    hide Counted, BindingC, Count16, Lawful;
    CountedLawful(Count16(), BindingC());
    Read(Counted(Count16(), BindingC()), b);
    CountedOk(BindingC(), Counted(Count16(), BindingC()).get(b).value);
  }

  // The list parsers already establish the parts of a node that are local to one entry.
  lemma {:induction false} LocalChecks(m: Module, kind: NodeType, id: u32, b: Bytes)
    requires Counted(Count16(), PropertyC(m)).get(b).Done?
    requires Counted(Count16(), BindingC()).get(Counted(Count16(), PropertyC(m)).get(b).rest).Done?
    ensures var ps := Counted(Count16(), PropertyC(m)).get(b).value;
      var bs := Counted(Count16(), BindingC()).get(Counted(Count16(), PropertyC(m)).get(b).rest).value;
      LocalOk(m, Local(kind, id, ps, bs)) <==> id != 0 && Distinct(Keys(ps)) && BindingsOk(m, bs)
  {
    PropertiesParsed(m, b);
    BindingsParsed(m, Counted(Count16(), PropertyC(m)).get(b).rest);
    hide Counted, PropertyC, BindingC, PropertyOk;
  }

  // -------- the census of a module's nodes --------

  // Nodes seen so far in all pages: their number and their IDs.
  class Census {
    var count: nat
    var ids: set<u32>

    constructor ()
      ensures count == 0 && ids == {}
    {
      count, ids := 0, {};
    }
  }

  ghost function SetOf(ids: seq<u32>): set<u32> {
    set x | x in ids
  }

  // More nodes may join the census: all IDs new, and the number within the budget.
  ghost predicate Admits(m: Module, count: nat, seen: set<u32>, ids: seq<u32>) {
    && Distinct(ids) && (forall x :: x in ids ==> x !in seen)
    && count + |ids| <= m.limits.maxUiNodes
  }

  lemma {:induction false} AdmitsConcat(m: Module, count: nat, seen: set<u32>, a: seq<u32>, b: seq<u32>)
    ensures Admits(m, count, seen, a + b) <==>
      Admits(m, count, seen, a) && Admits(m, count + |a|, seen + SetOf(a), b)
    ensures SetOf(a + b) == SetOf(a) + SetOf(b)
  {
    DistinctConcat(a, b);
    assert forall x :: x in a + b <==> x in a || x in b;
  }

  lemma {:induction false} CountedGet<T>(c: Codec<T>, b: Bytes)
    ensures Counted(Count16(), c).get(b) ==
      match Get16(b) case Fail => Fail case Done(n, rest) => GetAll(c, n, rest)
  {
    hide Get16, GetAll;
  }

  method ReadLocal(reader: Reader, m: Module, census: Census) returns (r: Option<Local>)
    requires reader.Valid()
    modifies reader, census
    ensures reader.Valid()
    ensures var p := LocalC(m).get(old(reader.Rest()));
      && (r.Some? <==> p.Done? && Admits(m, old(census.count), old(census.ids), [p.value.id]))
      && (r.Some? ==>
            && r.value == p.value && reader.Rest() == p.rest
            && census.count == old(census.count) + 1 && census.ids == old(census.ids) + {p.value.id})
  {
    LocalGet(m, reader.Rest());
    hide LocalC, GetNodeType, Get32, GetLocalLists;
    census.count := census.count + 1;
    if census.count > m.limits.maxUiNodes {
      return None;
    }
    var kind := ReadNodeType(reader);
    if kind.None? {
      return None;
    }
    var id := reader.U32();
    if id.None? {
      return None;
    }
    if id.value == 0 || id.value in census.ids {
      NoZeroId(m, kind.value, reader.Rest());
      return None;
    }
    census.ids := census.ids + {id.value};
    r := ReadLists(reader, m, kind.value, id.value);
  }

  lemma {:induction false} NoZeroId(m: Module, kind: NodeType, b: Bytes)
    ensures GetLocalLists(m, kind, 0, b).Fail?
  {
    hide PropertyC, BindingC, Counted;
  }

  // The properties and the bindings that complete a node's own record.
  method ReadLists(reader: Reader, m: Module, kind: NodeType, id: u32) returns (r: Option<Local>)
    requires reader.Valid() && id != 0
    modifies reader
    ensures reader.Valid() && Took(r, GetLocalLists(m, kind, id, old(reader.Rest())), reader.Rest())
  {
    hide Get16, PropertyC, BindingC, LocalOk, BindingsOk, Counted, Count16, GetAll;
    ghost var lists := reader.Rest();
    CountedGet(PropertyC(m), lists);
    if Counted(Count16(), PropertyC(m)).get(lists).Done? {
      var rest := Counted(Count16(), PropertyC(m)).get(lists).rest;
      CountedGet(BindingC(), rest);
      if Counted(Count16(), BindingC()).get(rest).Done? {
        LocalChecks(m, kind, id, lists);
      }
    }
    var propertyCount := reader.U16();
    if propertyCount.None? {
      return None;
    }
    var properties := ReadProperties(reader, m, propertyCount.value);
    if properties.None? {
      return None;
    }
    var eventCount := reader.U16();
    if eventCount.None? {
      return None;
    }
    var bindings := ReadBindings(reader, m, eventCount.value);
    if bindings.None? {
      return None;
    }
    r := Some(Local(kind, id, properties.value, bindings.value));
  }

  method ReadNodeType(reader: Reader) returns (r: Option<NodeType>)
    requires reader.Valid()
    modifies reader
    ensures reader.Valid() && Took(r, GetNodeType(old(reader.Rest())), reader.Rest())
  {
    var raw := reader.U8();
    return if raw.Some? && 1 <= raw.value <= 11 then Some(raw.value) else None;
  }

  // -------- whole trees --------

  lemma {:induction false} IdsAllConcat(a: seq<UiNode>, b: seq<UiNode>)
    ensures IdsAll(a + b) == IdsAll(a) + IdsAll(b)
  {
    if a == [] {
      assert a + b == b;
    } else {
      assert (a + b)[1..] == a[1..] + b;
      IdsAllConcat(a[1..], b);
    }
  }

  lemma {:induction false} NodesStep(m: Module, d: nat, n: nat, xs: seq<UiNode>, b: Bytes)
    requires n > 0
    ensures GetNode(m, d, b).Fail? ==> Resumed(xs, GetNodes(m, d, n, b)) == Fail
    ensures GetNode(m, d, b).Done? ==>
      Resumed(xs, GetNodes(m, d, n, b))
        == Resumed(xs + [GetNode(m, d, b).value], GetNodes(m, d, n - 1, GetNode(m, d, b).rest))
  {
    hide GetNode;
    if GetNode(m, d, b).Done? && GetNodes(m, d, n - 1, GetNode(m, d, b).rest).Done? {
      var x, ys := GetNode(m, d, b).value, GetNodes(m, d, n - 1, GetNode(m, d, b).rest).value;
      assert xs + ([x] + ys) == (xs + [x]) + ys;
    }
  }

  // The levels below a node at the given depth, itself included.
  function Levels(depth: nat): nat {
    if depth > MAX_UI_DEPTH then 0 else MAX_UI_DEPTH + 1 - depth
  }

  lemma {:induction false} AdmittedCount(m: Module, count: nat, seen: set<u32>, id: u32)
    requires Admits(m, count, seen, [id])
    ensures count + 1 <= m.limits.maxUiNodes && SetOf([id]) == {id}
  {
  }

  method ReadNode(reader: Reader, m: Module, depth: nat, census: Census) returns (r: Option<UiNode>)
    requires reader.Valid() && depth >= 1
    modifies reader, census
    ensures reader.Valid()
    ensures var p := GetNode(m, Levels(depth), old(reader.Rest()));
      && (r.Some? <==> p.Done? && Admits(m, old(census.count), old(census.ids), Ids(p.value)))
      && (r.Some? ==>
            && r.value == p.value && reader.Rest() == p.rest
            && census.count == old(census.count) + |Ids(p.value)|
            && census.ids == old(census.ids) + SetOf(Ids(p.value)))
    decreases Levels(depth), 0
  {
    hide LocalC, Admits, GetNodes;
    if depth > MAX_UI_DEPTH {
      return None;
    }
    ghost var p := GetNode(m, Levels(depth), reader.Rest());
    if p.Done? {
      AdmitsConcat(m, census.count, census.ids, [p.value.id], IdsAll(p.value.children));
      assert Ids(p.value) == [p.value.id] + IdsAll(p.value.children);
    }
    var l := ReadLocal(reader, m, census);
    if l.None? {
      return None;
    }
    AdmittedCount(m, old(census.count), old(census.ids), l.value.id);
    var count := reader.U16();
    if count.None? {
      return None;
    }
    var children := ReadNodes(reader, m, depth + 1, count.value, census);
    if children.None? {
      return None;
    }
    r := Some(UiNode(l.value.kind, l.value.id, l.value.properties, l.value.events, children.value));
  }

  // The loops over a node's children and over the pages.
  method ReadNodes(reader: Reader, m: Module, depth: nat, count: nat, census: Census) returns (r: Option<seq<UiNode>>)
    requires reader.Valid() && depth >= 1 && census.count <= m.limits.maxUiNodes
    modifies reader, census
    ensures reader.Valid()
    ensures var p := GetNodes(m, Levels(depth), count, old(reader.Rest()));
      && (r.Some? <==> p.Done? && Admits(m, old(census.count), old(census.ids), IdsAll(p.value)))
      && (r.Some? ==>
            && r.value == p.value && reader.Rest() == p.rest
            && census.count == old(census.count) + |IdsAll(p.value)|
            && census.ids == old(census.ids) + SetOf(IdsAll(p.value)))
    decreases Levels(depth), 1
  {
    hide GetNode, Admits, IdsAll, SetOf, Ids;
    ghost var d := Levels(depth);
    ghost var whole := GetNodes(m, d, count, reader.Rest());
    ghost var count0, ids0 := census.count, census.ids;
    ListStart(whole);
    NoneAdmitted(m, count0, ids0);
    var nodes: seq<UiNode> := [];
    for i := 0 to count
      invariant reader.Valid() && whole == Resumed(nodes, GetNodes(m, d, count - i, reader.Rest()))
      invariant Admits(m, count0, ids0, IdsAll(nodes))
      invariant census.count == count0 + |IdsAll(nodes)| && census.ids == ids0 + SetOf(IdsAll(nodes))
    {
      NodesStep(m, d, count - i, nodes, reader.Rest());
      NodesAdmitted(m, count0, ids0, d, count - i, nodes, reader.Rest());
      var node := ReadNode(reader, m, depth, census);
      if node.None? {
        return None;
      }
      nodes := nodes + [node.value];
    }
    assert nodes + [] == nodes;
    r := Some(nodes);
  }

  // The census of a list that continues with the node parsed at b.
  lemma {:induction false} NodesAdmitted(m: Module, count: nat, seen: set<u32>, d: nat, n: nat, read: seq<UiNode>,
      b: Bytes)
    requires n > 0
    ensures var p := GetNode(m, d, b);
      p.Done? ==>
        && IdsAll(read + [p.value]) == IdsAll(read) + Ids(p.value)
        && SetOf(IdsAll(read + [p.value])) == SetOf(IdsAll(read)) + SetOf(Ids(p.value))
        && (Admits(m, count, seen, IdsAll(read + [p.value])) <==>
              Admits(m, count, seen, IdsAll(read))
              && Admits(m, count + |IdsAll(read)|, seen + SetOf(IdsAll(read)), Ids(p.value)))
        && (GetNodes(m, d, n - 1, p.rest).Done? ==>
              var all := read + [p.value] + GetNodes(m, d, n - 1, p.rest).value;
              Admits(m, count, seen, IdsAll(all)) ==> Admits(m, count, seen, IdsAll(read + [p.value])))
  {
    hide GetNode, GetNodes, Admits;
    var p := GetNode(m, d, b);
    if p.Done? {
      IdsAllConcat(read, [p.value]);
      assert IdsAll([p.value]) == Ids(p.value) + IdsAll([]);
      AdmitsConcat(m, count, seen, IdsAll(read), Ids(p.value));
      var after := GetNodes(m, d, n - 1, p.rest);
      if after.Done? {
        IdsAllConcat(read + [p.value], after.value);
        AdmitsConcat(m, count, seen, IdsAll(read + [p.value]), IdsAll(after.value));
      }
    }
  }

  lemma {:induction false} NoneAdmitted(m: Module, count: nat, seen: set<u32>)
    requires count <= m.limits.maxUiNodes
    ensures IdsAll([]) == [] && SetOf([]) == {} && Admits(m, count, seen, [])
  {
  }
}

/** Two lookups a user sees the results of: the handler an event reaches, and the text a
    value is shown as. */
module Lookups {
  import opened Basics
  import opened Bytecode
  import opened UiTree
  import opened Interpreter

  // -------- the handler of an event --------

  // Some node of the tree has the ID and binds the event to the handler.
  ghost predicate Binds(n: UiNode, node: u32, event: EventType, handler: u16)
    decreases n
  {
    || (n.id == node && EventBinding(event, handler) in n.events)
    || exists i :: 0 <= i < |n.children| && Binds(n.children[i], node, event, handler)
  }

  lemma {:induction false} FirstBindingExact(bs: seq<EventBinding>, event: EventType)
    requires Distinct(EventsOf(bs))
    ensures forall h: u16 :: FirstBinding(bs, event) == Some(h) <==> EventBinding(event, h) in bs
  {
    if bs == [] {
    } else {
      assert EventsOf(bs) == [bs[0].event] + EventsOf(bs[1..]);
      DistinctConcat([bs[0].event], EventsOf(bs[1..]));
      FirstBindingExact(bs[1..], event);
      assert bs == [bs[0]] + bs[1..];
      assert event in EventsOf(bs[1..]) ==> event !in [bs[0].event];
      forall h: u16 | EventBinding(event, h) in bs[1..] ensures event in EventsOf(bs[1..]) {
        EventOfBinding(bs[1..], EventBinding(event, h));
      }
    }
  }

  lemma {:induction false} EventOfBinding(bs: seq<EventBinding>, b: EventBinding)
    requires b in bs
    ensures b.event in EventsOf(bs)
  {
    var i :| 0 <= i < |bs| && bs[i] == b;
    assert EventsOf(bs)[i] == b.event;
  }

  lemma {:induction false} BoundIsInside(n: UiNode, node: u32, event: EventType, handler: u16)
    requires Binds(n, node, event, handler)
    ensures node in Ids(n)
    decreases n
  {
    if n.id != node || EventBinding(event, handler) !in n.events {
      var i :| 0 <= i < |n.children| && Binds(n.children[i], node, event, handler);
      BoundIsInside(n.children[i], node, event, handler);
      ChildIdsInside(n.children, i, node);
    }
  }

  lemma {:induction false} ChildIdsInside(ns: seq<UiNode>, i: nat, node: u32)
    requires i < |ns| && node in Ids(ns[i])
    ensures node in IdsAll(ns)
  {
    if i == 0 {
    } else {
      ChildIdsInside(ns[1..], i - 1, node);
    }
  }

  // An event reaches exactly the handler that the node with its ID binds it to.
  lemma {:induction false} FindEventExact(m: Module, n: UiNode, node: u32, event: EventType)
    requires NodeOk(m, n) && Distinct(Ids(n))
    ensures forall h: u16 :: FindEvent(n, node, event) == Some(h) <==> Binds(n, node, event, h)
    decreases n, 1
  {
    DistinctConcat([n.id], IdsAll(n.children));
    FindEventAllExact(m, n.children, node, event);
    FirstBindingExact(n.events, event);
    if n.id == node {
      assert node in [n.id];
      forall h: u16, i | 0 <= i < |n.children| ensures !Binds(n.children[i], node, event, h) {
        if Binds(n.children[i], node, event, h) {
          BoundIsInside(n.children[i], node, event, h);
          ChildIdsInside(n.children, i, node);
          assert false;
        }
      }
    }
  }

  lemma {:induction false} FindEventAllExact(m: Module, ns: seq<UiNode>, node: u32, event: EventType)
    requires Distinct(IdsAll(ns)) && forall i :: 0 <= i < |ns| ==> NodeOk(m, ns[i])
    ensures forall h: u16 ::
      FindEventAll(ns, node, event) == Some(h) <==> exists i :: 0 <= i < |ns| && Binds(ns[i], node, event, h)
    decreases ns, 0
  {
    if ns == [] {
    } else {
      var rest := ns[1..];
      DistinctConcat(Ids(ns[0]), IdsAll(rest));
      FindEventExact(m, ns[0], node, event);
      FindEventAllExact(m, rest, node, event);
      forall h: u16
        ensures FindEventAll(ns, node, event) == Some(h) <==> exists i :: 0 <= i < |ns| && Binds(ns[i], node, event, h)
      {
        HeadOrRest(ns, node, event, h);
        OneSideBinds(ns[0], rest, node, event);
      }
    }
  }

  // With disjoint IDs an event is bound in the first tree or in the others, not in both.
  lemma {:induction false} OneSideBinds(n: UiNode, rest: seq<UiNode>, node: u32, event: EventType)
    requires Disjoint(Ids(n), IdsAll(rest))
    ensures (exists h: u16 :: Binds(n, node, event, h)) ==>
      forall h: u16, i :: 0 <= i < |rest| ==> !Binds(rest[i], node, event, h)
  {
    hide Binds;
    if g: u16 :| Binds(n, node, event, g) {
      BoundIsInside(n, node, event, g);
      forall h: u16, i | 0 <= i < |rest| ensures !Binds(rest[i], node, event, h) {
        if Binds(rest[i], node, event, h) {
          BoundIsInside(rest[i], node, event, h);
          ChildIdsInside(rest, i, node);
          assert false;
        }
      }
    }
  }

  lemma {:induction false} HeadOrRest(ns: seq<UiNode>, node: u32, event: EventType, h: u16)
    requires ns != []
    ensures (exists i :: 0 <= i < |ns| && Binds(ns[i], node, event, h))
      <==> Binds(ns[0], node, event, h) || exists i :: 0 <= i < |ns[1..]| && Binds(ns[1..][i], node, event, h)
  {
    hide Binds;
    if i :| 0 <= i < |ns| && Binds(ns[i], node, event, h) {
      if i > 0 {
        assert ns[1..][i - 1] == ns[i];
      }
    }
    if i :| 0 <= i < |ns[1..]| && Binds(ns[1..][i], node, event, h) {
      assert ns[i + 1] == ns[1..][i];
    }
  }

  // -------- the text of a value --------

  function Reading(digits: Bytes): int {
    if digits == [] then 0 else 10 * Reading(digits[..|digits| - 1]) + digits[|digits| - 1] as int - 48
  }

  // Decimal writes digits only, without a leading zero, and they read back as the number.
  lemma {:induction false} DecimalReads(n: nat)
    ensures Reading(Decimal(n)) == n
    ensures |Decimal(n)| > 0 && forall i :: 0 <= i < |Decimal(n)| ==> 48 <= Decimal(n)[i] <= 57
    ensures n > 0 ==> Decimal(n)[0] != 48
  {
    if n >= 10 {
      DecimalReads(n / 10);
      var d := Decimal(n);
      assert d[..|d| - 1] == Decimal(n / 10);
    } else {
      assert Decimal(n)[..0] == [];
    }
  }

  // The text shown for a state determines its value.
  lemma {:induction false} TextDecidesValue(v: Value, w: Value)
    requires TypeOf(v) == TypeOf(w) && TextOf(v) == TextOf(w)
    ensures v == w
  {
    if v.IntValue? {
      DecimalReads(if v.i < 0 then 0 - v.i else v.i);
      DecimalReads(if w.i < 0 then 0 - w.i else w.i);
      assert TextOf(v)[0] == TextOf(w)[0];
      if v.i < 0 {
        assert TextOf(v)[1..] == TextOf(w)[1..];
      }
    }
  }
}

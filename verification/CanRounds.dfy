/** The order in which a round goes through the motors of a bus, and what it sends. */
module CanRounds {
  import opened Common
  import opened RobstrideCodec
  import opened CanSlots

  function Filled(slots: Slots, id: Byte): seq<Frame>
    requires id in slots
  {
    match slots[id]
    case None => []
    case Some(f) => [f]
  }

  lemma SentNext(slots: Slots, order: seq<Byte>, i: nat)
    requires i < |order| && forall id :: id in order ==> id in slots
    ensures Sent(slots, order[..i + 1]) == Sent(slots, order[..i]) + Filled(slots, order[i])
  {
    assert order[..i + 1][..i] == order[..i];
  }

  // The frames of the filled slots, in the given order of motors.
  function Sent(slots: Slots, order: seq<Byte>): (fs: seq<Frame>)
    requires forall id :: id in order ==> id in slots
  {
    if order == [] then []
    else
      Sent(slots, order[..|order| - 1]) + Filled(slots, order[|order| - 1])
  }

  predicate Once(order: seq<Byte>, ids: set<Byte>) {
    && (forall i, j :: 0 <= i < j < |order| ==> order[i] != order[j])
    && (set id | id in order) == ids
  }

  lemma OnceWithin(order: seq<Byte>, ids: set<Byte>)
    requires Once(order, ids)
    ensures forall id :: id in order ==> id in ids
  {
    forall id | id in order ensures id in ids {
      assert id in (set i | i in order);
    }
  }

  // The motors whose slot holds this frame.
  function Holders(slots: Slots, ids: set<Byte>, f: Frame): set<Byte>
    requires ids <= slots.Keys
  {
    set id | id in ids && slots[id] == Some(f)
  }

  lemma OnceInit(order: seq<Byte>, ids: set<Byte>, init: seq<Byte>, last: Byte)
    requires Once(order, ids) && order == init + [last]
    ensures last in ids && last !in init && Once(init, ids - {last})
  {
    assert forall i :: 0 <= i < |init| ==> order[i] == init[i];
    assert order[|init|] == last;
    forall id ensures id in init <==> id in ids && id != last {
      if id in init {
        assert id in order;
      }
      if id in ids {
        assert id in order;
      }
    }
  }

  lemma HoldersNext(slots: Slots, ids: set<Byte>, f: Frame, last: Byte)
    requires ids <= slots.Keys && last in ids
    ensures |Holders(slots, ids, f)| == |Holders(slots, ids - {last}, f)| + (if slots[last] == Some(f) then 1 else 0)
  {
    var rest := Holders(slots, ids - {last}, f);
    assert Holders(slots, ids, f) == if slots[last] == Some(f) then rest + {last} else rest;
  }

  /** Whatever the order of the motors, every frame is sent once for each slot that holds it. */
  lemma {:induction false} SentOncePerSlot(slots: Slots, order: seq<Byte>, ids: set<Byte>, f: Frame)
    requires Once(order, ids) && ids <= slots.Keys
    ensures forall id :: id in order ==> id in slots
    ensures multiset(Sent(slots, order))[f] == |Holders(slots, ids, f)|
  {
    if order == [] {
      assert Holders(slots, ids, f) == {};
    } else {
      var last := order[|order| - 1];
      var init := order[..|order| - 1];
      OnceInit(order, ids, init, last);
      SentOncePerSlot(slots, init, ids - {last}, f);
      HoldersNext(slots, ids, f, last);
    }
  }

  lemma OnceNext(order: seq<Byte>, ids: set<Byte>, left: set<Byte>, id: Byte)
    requires left <= ids && id in left && Once(order, ids - left)
    ensures Once(order + [id], ids - (left - {id}))
  {
    assert id !in (set i | i in order);
    assert (set i | i in order + [id]) == (set i | i in order) + {id};
    assert ids - left + {id} == ids - (left - {id});
  }

  // Some order of a map's keys; the map's own is not specified.
  method IterationOrder(ids: set<Byte>) returns (order: seq<Byte>)
    ensures Once(order, ids) && forall id :: id in order ==> id in ids
  {
    order := [];
    var left := ids;
    while left != {}
      invariant left <= ids && Once(order, ids - left)
      decreases |left|
    {
      var id :| id in left;
      OnceNext(order, ids, left, id);
      order := order + [id];
      left := left - {id};
    }
    assert ids - {} == ids;
    assert forall id :: id in order ==> id in (set i | i in order);
  }
}

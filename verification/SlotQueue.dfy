/** The order in which pending slots take turns, and what it makes of the choice at a period start. */
module SlotQueue {
  import opened Numbers
  import opened Sets
  import opened AssignedSlots

  datatype Entry = Entry(id: ParaId, slot: TemporarySlot)

  predicate Less(a: Entry, b: Entry) {
    TurnBefore(a.id, a.slot, b.id, b.slot)
  }

  predicate Sorted(v: seq<Entry>) {
    forall i, j :: 0 <= i < j < |v| ==> Less(v[i], v[j])
  }

  predicate DistinctIds(v: seq<Entry>) {
    forall i, j :: 0 <= i < j < |v| ==> v[i].id != v[j].id
  }

  function Insert(e: Entry, v: seq<Entry>): (r: seq<Entry>)
    requires Sorted(v) && forall x :: x in v ==> x.id != e.id
    ensures Sorted(r) && |r| == |v| + 1
    ensures forall x :: x in r <==> x == e || x in v
  {
    if v == [] then [e]
    else if Less(e, v[0]) then [e] + v
    else
      var rest := Insert(e, v[1..]);
      assert v == [v[0]] + v[1..];
      assert forall x :: x in rest ==> Less(v[0], x);
      [v[0]] + rest
  }

  /** The sort of the pending vector. */
  function SortByTurn(v: seq<Entry>): (r: seq<Entry>)
    requires DistinctIds(v)
    ensures Sorted(r) && |r| == |v|
    ensures forall x :: x in r <==> x in v
  {
    if v == [] then []
    else
      var rest := SortByTurn(v[1..]);
      assert v == [v[0]] + v[1..];
      assert forall x :: x in rest ==> x in v[1..];
      Insert(v[0], rest)
  }

  /** `v` lists the slots of `ids`, each once. */
  ghost predicate Lists(slots: Slots, v: seq<Entry>, ids: set<ParaId>) {
    && (forall e :: e in v ==> e.id in slots && e.slot == slots[e.id] && e.id in ids)
    && (forall x :: x in ids ==> x in slots && Entry(x, slots[x]) in v)
    && DistinctIds(v)
  }

  lemma SortLists(slots: Slots, v: seq<Entry>, ids: set<ParaId>)
    requires Lists(slots, v, ids)
    ensures Lists(slots, SortByTurn(v), ids)
  {
  }

  ghost function Listing(slots: Slots, ids: set<ParaId>): (v: seq<Entry>)
    requires ids <= slots.Keys
    ensures Lists(slots, v, ids)
  {
    if ids == {} then []
    else
      var x :| x in ids;
      [Entry(x, slots[x])] + Listing(slots, ids - {x})
  }

  function IdsOf(v: seq<Entry>): set<ParaId> {
    set e | e in v :: e.id
  }

  lemma {:induction false} IdsCount(v: seq<Entry>)
    requires DistinctIds(v)
    ensures |IdsOf(v)| == |v|
  {
    if v == [] {
    } else {
      var n := |v| - 1;
      IdsCount(v[..n]);
      assert IdsOf(v) == IdsOf(v[..n]) + {v[n].id};
    }
  }

  /** In the sorted queue, what is ahead of the i-th slot is the first i entries. */
  lemma QueueRank(slots: Slots, period: nat, q: seq<Entry>, i: nat)
    requires Lists(slots, q, Pending(slots, period)) && Sorted(q) && i < |q|
    ensures Ahead(slots, period, q[i].id) == IdsOf(q[..i])
    ensures |Ahead(slots, period, q[i].id)| == i
  {
    var y := q[i].id;
    forall x
      ensures x in Ahead(slots, period, y) <==> x in IdsOf(q[..i])
    {
      if x in Ahead(slots, period, y) {
        var k :| 0 <= k < |q| && q[k] == Entry(x, slots[x]);
      }
      if x in IdsOf(q[..i]) {
        var k :| 0 <= k < i && q[..i][k].id == x;
      }
    }
    IdsCount(q[..i]);
  }

  /** The chosen slots are the first entries of the sorted queue, as many as there is room for. */
  lemma ChosenIsPrefix(slots: Slots, period: nat, cap: nat, q: seq<Entry>)
    requires Lists(slots, q, Pending(slots, period)) && Sorted(q)
    ensures Chosen(slots, period, cap) == IdsOf(q[..Min(|q|, Room(slots, period, cap))])
  {
    var n := Min(|q|, Room(slots, period, cap));
    forall y
      ensures y in Chosen(slots, period, cap) <==> y in IdsOf(q[..n])
    {
      if y in Chosen(slots, period, cap) {
        var k :| 0 <= k < |q| && q[k] == Entry(y, slots[y]);
        QueueRank(slots, period, q, k);
      }
      if y in IdsOf(q[..n]) {
        var k :| 0 <= k < n && q[..n][k].id == y;
        assert q[k] in q;
        QueueRank(slots, period, q, k);
      }
    }
  }

  /** Exactly min(pending, cap - active) slots are chosen. */
  lemma ChosenCount(slots: Slots, period: nat, cap: nat)
    ensures |Chosen(slots, period, cap)| == Min(|Pending(slots, period)|, Room(slots, period, cap))
  {
    var v := Listing(slots, Pending(slots, period));
    SortLists(slots, v, Pending(slots, period));
    var q := SortByTurn(v);
    ChosenIsPrefix(slots, period, cap, q);
    IdsCount(q);
    assert IdsOf(q) == Pending(slots, period);
    IdsCount(q[..Min(|q|, Room(slots, period, cap))]);
  }

  /** No slot that was passed over has a turn before one that was chosen. */
  lemma ChosenAreLeast(slots: Slots, period: nat, cap: nat, x: ParaId, y: ParaId)
    requires x in Pending(slots, period) && x !in Chosen(slots, period, cap)
    requires y in Chosen(slots, period, cap)
    ensures TurnBefore(y, slots[y], x, slots[x])
  {
    if !TurnBefore(y, slots[y], x, slots[x]) {
      AheadShrinks(slots, period, x, y);
    }
  }

  lemma AheadShrinks(slots: Slots, period: nat, x: ParaId, y: ParaId)
    requires x in Pending(slots, period) && y in slots && TurnBefore(x, slots[x], y, slots[y])
    ensures Ahead(slots, period, x) < Ahead(slots, period, y)
    ensures |Ahead(slots, period, x)| < |Ahead(slots, period, y)|
  {
    var a, b := Ahead(slots, period, x), Ahead(slots, period, y);
    SubsetCard(a, b - {x});
  }

  /** Among the pending slots there is one with nobody ahead of it. */
  lemma {:induction false} SomebodyIsFirst(slots: Slots, period: nat, x: ParaId) returns (head: ParaId)
    requires x in Pending(slots, period)
    ensures head in Pending(slots, period) && Ahead(slots, period, head) == {}
    decreases |Ahead(slots, period, x)|
  {
    if Ahead(slots, period, x) == {} {
      head := x;
    } else {
      var y :| y in Ahead(slots, period, x);
      AheadShrinks(slots, period, y, x);
      head := SomebodyIsFirst(slots, period, y);
    }
  }

  /** The first in turn, if it is chosen at all, is not refused. */
  predicate HeadAccepted(slots: Slots, period: nat, cap: nat, refused: set<ParaId>) {
    forall y :: y in Chosen(slots, period, cap) && Ahead(slots, period, y) == {} ==> y !in refused
  }

  /** Some slot is leased if and only if there is room, some slot is pending and the first in turn is not refused. */
  lemma SomebodyIsLeasedExactly(slots: Slots, period: nat, cap: nat, refused: set<ParaId>)
    ensures Granted(slots, period, cap, refused) != {} <==>
            Room(slots, period, cap) > 0 && Pending(slots, period) != {} && HeadAccepted(slots, period, cap, refused)
  {
    if Granted(slots, period, cap, refused) != {} {
      var y :| y in Granted(slots, period, cap, refused);
      forall head | head in Chosen(slots, period, cap) && Ahead(slots, period, head) == {}
        ensures head !in refused
      {
        assert y !in Ahead(slots, period, head);
        assert y != head ==> head in Ahead(slots, period, y);
      }
    } else if Room(slots, period, cap) > 0 && Pending(slots, period) != {} {
      var x :| x in Pending(slots, period);
      var head := SomebodyIsFirst(slots, period, x);
      assert head in Chosen(slots, period, cap) && head !in Granted(slots, period, cap, refused);
    }
  }

  /** Whoever is ahead of a chosen slot is chosen too. */
  lemma AheadIsChosen(slots: Slots, period: nat, cap: nat, y: ParaId)
    requires y in Chosen(slots, period, cap)
    ensures Ahead(slots, period, y) <= Chosen(slots, period, cap)
  {
    forall x | x in Ahead(slots, period, y)
      ensures x in Chosen(slots, period, cap)
    {
      AheadShrinks(slots, period, x, y);
    }
  }

  /** Without a refusal among the chosen, all of them are leased. */
  lemma AllGranted(slots: Slots, period: nat, cap: nat, refused: set<ParaId>)
    requires Chosen(slots, period, cap) !! refused
    ensures Granted(slots, period, cap, refused) == Chosen(slots, period, cap)
  {
    forall y | y in Chosen(slots, period, cap)
      ensures Ahead(slots, period, y) !! refused
    {
      AheadIsChosen(slots, period, cap, y);
    }
  }

  /** With a refusal, those ahead of the first refused slot are leased. */
  lemma GrantedAheadOfRefusal(slots: Slots, period: nat, cap: nat, refused: set<ParaId>, first: ParaId)
    requires first in Chosen(slots, period, cap) && first in refused && Ahead(slots, period, first) !! refused
    ensures Granted(slots, period, cap, refused) == Ahead(slots, period, first)
  {
    AheadIsChosen(slots, period, cap, first);
    forall y | y in Ahead(slots, period, first)
      ensures y in Granted(slots, period, cap, refused)
    {
      AheadShrinks(slots, period, y, first);
    }
    forall y | y in Granted(slots, period, cap, refused)
      ensures y in Ahead(slots, period, first)
    {
      assert first !in Ahead(slots, period, y);
    }
  }

  /** If some chosen slot is refused, one of them is the first. */
  lemma {:induction false} SomebodyIsRefusedFirst(slots: Slots, period: nat, cap: nat, refused: set<ParaId>, y: ParaId)
    returns (first: ParaId)
    requires y in Chosen(slots, period, cap) && y in refused
    ensures first in Chosen(slots, period, cap) && first in refused && Ahead(slots, period, first) !! refused
    decreases |Ahead(slots, period, y)|
  {
    if Ahead(slots, period, y) !! refused {
      first := y;
    } else {
      var x :| x in Ahead(slots, period, y) && x in refused;
      AheadIsChosen(slots, period, cap, y);
      AheadShrinks(slots, period, x, y);
      first := SomebodyIsRefusedFirst(slots, period, cap, refused, x);
    }
  }

  /** No slot that was passed over, for want of room or for a refusal, has a turn before one that was leased. */
  lemma GrantedAreLeast(slots: Slots, period: nat, cap: nat, refused: set<ParaId>, x: ParaId, y: ParaId)
    requires x in Pending(slots, period) && x !in Granted(slots, period, cap, refused)
    requires y in Granted(slots, period, cap, refused)
    ensures TurnBefore(y, slots[y], x, slots[x])
  {
    if !TurnBefore(y, slots[y], x, slots[x]) {
      AheadIsChosen(slots, period, cap, y);
      AheadShrinks(slots, period, x, y);
    }
  }
}

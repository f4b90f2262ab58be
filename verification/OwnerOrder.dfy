/** The order in which sessionize lists the owners: when the events alone determine it. */
module OwnerOrder {
  import opened Common
  import opened Types
  import opened Sessionize

  /** The owner's first time. */
  function Earliest(timeline: seq<Event>, o: string): int {
    var ts := Sorted(OwnerTimes(timeline, o));
    if ts == [] then 0 else ts[0]
  }

  ghost predicate Tied(timeline: seq<Event>, p: string, q: string) {
    && p != q && OwnerEvents(timeline, p) != [] && OwnerEvents(timeline, q) != []
    && Earliest(timeline, p) == Earliest(timeline, q)
  }

  /** Earlier owners come first. */
  ghost predicate EarliestFirst(timeline: seq<Event>, owners: seq<string>) {
    forall i, j :: 0 <= i < j < |owners| ==> Earliest(timeline, owners[i]) <= Earliest(timeline, owners[j])
  }

  // ---------------------------------------------------------------- what an order of appearance is

  lemma {:induction false} AppearingMembers(events: seq<Event>, o: string)
    ensures o in Appearing(events) <==> OwnerEvents(events, o) != []
  {
    if events != [] { AppearingMembers(events[..|events| - 1], o); }
  }

  lemma {:induction false} AppearingOnce(events: seq<Event>)
    ensures NoDuplicates(Appearing(events))
  {
    if events != [] { AppearingOnce(events[..|events| - 1]); }
  }

  /** The owner's first event, and where it is. */
  lemma {:induction false} FirstEvent(events: seq<Event>, o: string) returns (i: nat)
    requires OwnerEvents(events, o) != []
    ensures i < |events| && events[i].owner == o && events[i] == OwnerEvents(events, o)[0]
    ensures forall k :: 0 <= k < i ==> events[k].owner != o
  {
    var front := events[..|events| - 1];
    if OwnerEvents(front, o) != [] {
      i := FirstEvent(front, o);
    } else {
      i := |events| - 1;
      forall k | 0 <= k < i
        ensures events[k].owner != o
      {
        if events[k].owner == o { OwnerOccurs(front, o, k); }
      }
    }
  }

  lemma {:induction false} OwnerOccurs(events: seq<Event>, o: string, k: nat)
    requires k < |events| && events[k].owner == o
    ensures OwnerEvents(events, o) != []
  {
    if k < |events| - 1 { OwnerOccurs(events[..|events| - 1], o, k); }
  }

  /** Who has an event before another's first one appears before that other. */
  lemma {:induction false} AppearsBefore(events: seq<Event>, p: string, q: string, i: nat, b: nat)
    requires i < |events| && events[i].owner == p && forall k :: 0 <= k <= i ==> events[k].owner != q
    requires b < |Appearing(events)| && Appearing(events)[b] == q
    ensures p in Appearing(events)[..b]
  {
    var n := |events| - 1;
    var front := events[..n];
    if b < |Appearing(front)| {
      assert q in Appearing(front);
      AppearingMembers(front, q);
      var k := FirstEvent(front, q);
      assert i < k;
      AppearsBefore(front, p, q, i, b);
      assert Appearing(events)[..b] == Appearing(front)[..b];
    } else {
      assert events[n].owner == q && Appearing(events)[..b] == Appearing(front);
      assert front[i].owner == p;
      OwnerOccurs(front, p, i);
      AppearingMembers(front, p);
    }
  }

  lemma EarliestIsFirst(sorted: seq<Event>, timeline: seq<Event>, o: string)
    requires Rearranged(sorted, timeline) && OwnerEvents(sorted, o) != []
    ensures Earliest(timeline, o) == OwnerEvents(sorted, o)[0].ts
  {
    SortShowsOwners(sorted, timeline, o);
    assert OwnerTimes(sorted, o)[0] == OwnerEvents(sorted, o)[0].ts;
  }

  lemma {:induction false} TimesFromFirst(sorted: seq<Event>, i: nat, j: nat)
    requires ByTime(sorted) && i <= j < |sorted|
    ensures sorted[i].ts <= sorted[j].ts
    decreases j
  {
    if i < j { TimesFromFirst(sorted, i, j - 1); }
  }

  /** The sort shows the owners by their first times. */
  lemma AppearEarliestFirst(timeline: seq<Event>, owners: seq<string>)
    requires AppearIn(timeline, owners)
    ensures EarliestFirst(timeline, owners) && NoDuplicates(owners)
    ensures forall o :: o in owners <==> OwnerEvents(timeline, o) != []
  {
    var sorted :| Rearranged(sorted, timeline) && owners == Appearing(sorted);
    AppearingOnce(sorted);
    forall o
      ensures o in owners <==> OwnerEvents(timeline, o) != []
    {
      AppearingMembers(sorted, o);
      SortShowsOwners(sorted, timeline, o);
    }
    forall i, j | 0 <= i < j < |owners|
      ensures Earliest(timeline, owners[i]) <= Earliest(timeline, owners[j])
    {
      AppearingMembers(sorted, owners[i]);
      AppearingMembers(sorted, owners[j]);
      var k := FirstEvent(sorted, owners[i]);
      var l := FirstEvent(sorted, owners[j]);
      EarliestIsFirst(sorted, timeline, owners[i]);
      EarliestIsFirst(sorted, timeline, owners[j]);
      if l < k {
        AppearsBefore(sorted, owners[j], owners[i], l, i);
        assert false;
      }
      TimesFromFirst(sorted, k, l);
    }
  }

  // ---------------------------------------------------------------- without ties the order is determined

  lemma LastIsLatest(timeline: seq<Event>, a: seq<string>, x: string)
    requires EarliestFirst(timeline, a) && x in a
    ensures a != [] && Earliest(timeline, x) <= Earliest(timeline, a[|a| - 1])
  {
  }

  lemma {:induction false} OrderIsUnique(timeline: seq<Event>, a: seq<string>, b: seq<string>)
    requires EarliestFirst(timeline, a) && EarliestFirst(timeline, b) && NoDuplicates(a) && NoDuplicates(b)
    requires forall o :: o in a <==> o in b
    requires forall p, q :: p in a && q in a && p != q ==> Earliest(timeline, p) != Earliest(timeline, q)
    ensures a == b
  {
    hide Earliest;
    if a == [] {
      if b != [] { SomeMember(b); }
    } else {
      var x := a[|a| - 1];
      assert x in b;
      var y := b[|b| - 1];
      assert y in a;
      LastIsLatest(timeline, a, y);
      LastIsLatest(timeline, b, x);
      var fa, fb := a[..|a| - 1], b[..|b| - 1];
      forall o
        ensures o in fa <==> o in fb
      {
        assert a == fa + [x] && b == fb + [y];
        assert o in fa <==> o in a && o != x;
        assert o in fb <==> o in b && o != y;
      }
      OrderIsUnique(timeline, fa, fb);
      assert a == fa + [x] && b == fb + [y];
    }
  }

  // ---------------------------------------------------------------- a tie leaves it open

  lemma MoreByTime(front: seq<Event>, last: Event)
    requires ByTime(front) && (front != [] ==> front[|front| - 1].ts <= last.ts)
    ensures ByTime(front + [last]) && multiset(front + [last]) == multiset(front) + multiset{last}
  {
    var all := front + [last];
    forall i, j | 0 <= i && j == i + 1 && j < |all|
      ensures all[i].ts <= all[j].ts
    {
      assert j < |front| ==> all[i] == front[i] && all[j] == front[j];
    }
  }

  lemma FrontByTime(sorted: seq<Event>)
    requires ByTime(sorted) && sorted != []
    ensures ByTime(sorted[..|sorted| - 1])
    ensures |sorted| > 1 ==> sorted[|sorted| - 2].ts <= sorted[|sorted| - 1].ts
  {
  }

  lemma {:induction false} SortOne(sorted: seq<Event>, e: Event) returns (r: seq<Event>)
    requires ByTime(sorted)
    ensures ByTime(r) && multiset(r) == multiset(sorted) + multiset{e} && r != []
    ensures r[|r| - 1] == e || (sorted != [] && r[|r| - 1] == sorted[|sorted| - 1])
  {
    if sorted == [] || sorted[|sorted| - 1].ts <= e.ts {
      r := sorted + [e];
      MoreByTime(sorted, e);
    } else {
      var last := sorted[|sorted| - 1];
      FrontByTime(sorted);
      hide ByTime;
      var front := SortOne(sorted[..|sorted| - 1], e);
      DropLast(sorted);
      MoreByTime(front, last);
      r := front + [last];
    }
  }

  lemma {:induction false} SomeSort(timeline: seq<Event>) returns (sorted: seq<Event>)
    ensures Rearranged(sorted, timeline)
  {
    if timeline == [] {
      sorted := [];
    } else {
      DropLast(timeline);
      var front := SomeSort(timeline[..|timeline| - 1]);
      sorted := SortOne(front, timeline[|timeline| - 1]);
    }
  }

  lemma SwapEqualTimes(sorted: seq<Event>, timeline: seq<Event>, i: nat, j: nat)
    requires Rearranged(sorted, timeline) && i < j < |sorted| && sorted[i].ts == sorted[j].ts
    ensures Rearranged(sorted[i := sorted[j]][j := sorted[i]], timeline)
  {
    var swapped := sorted[i := sorted[j]][j := sorted[i]];
    assert forall k :: 0 <= k < |sorted| ==> swapped[k].ts == sorted[k].ts;
    assert multiset(swapped) == multiset(sorted);
  }

  lemma PrefixMember(a: seq<string>, b: nat, x: string) returns (k: nat)
    requires b <= |a| && x in a[..b]
    ensures k < b && a[k] == x
  {
    k :| 0 <= k < |a[..b]| && a[..b][k] == x;
  }

  /** Two sorts of the same timeline that show two owners in opposite order. */
  lemma OppositeOrders(a: seq<Event>, b: seq<Event>, p: string, q: string, i: nat)
    requires i < |a| == |b| && a[i].owner == p && b[i].owner == q && p != q
    requires forall k :: 0 <= k <= i ==> a[k].owner != q && b[k].owner != p
    requires OwnerEvents(a, q) != []
    ensures Appearing(a) != Appearing(b)
  {
    hide Appearing, OwnerEvents;
    if Appearing(a) == Appearing(b) {
      var owners := Appearing(a);
      AppearingMembers(a, q);
      AppearingOnce(a);
      var y :| 0 <= y < |owners| && owners[y] == q;
      AppearsBefore(a, p, q, i, y);
      var x := PrefixMember(owners, y, p);
      AppearsBefore(b, q, p, i, x);
      var z := PrefixMember(owners, x, q);
      assert false;
    }
  }

  lemma SwapReorders(sorted: seq<Event>, timeline: seq<Event>, p: string, q: string, i: nat, j: nat)
      returns (swapped: seq<Event>)
    requires Rearranged(sorted, timeline) && p != q && OwnerEvents(sorted, q) != []
    requires i < j < |sorted| && sorted[i].ts == sorted[j].ts && sorted[i].owner == p && sorted[j].owner == q
    requires forall k :: 0 <= k < i ==> sorted[k].owner != p
    requires forall k :: 0 <= k < j ==> sorted[k].owner != q
    ensures Rearranged(swapped, timeline) && Appearing(swapped) != Appearing(sorted)
  {
    hide Rearranged, Appearing, OwnerEvents;
    swapped := sorted[i := sorted[j]][j := sorted[i]];
    SwapEqualTimes(sorted, timeline, i, j);
    OppositeOrders(sorted, swapped, p, q, i);
  }

  lemma TiedAt(sorted: seq<Event>, timeline: seq<Event>, p: string, q: string) returns (i: nat, j: nat)
    requires Tied(timeline, p, q) && Rearranged(sorted, timeline)
    ensures OwnerEvents(sorted, p) != [] && OwnerEvents(sorted, q) != []
    ensures i < |sorted| && j < |sorted| && sorted[i].ts == sorted[j].ts && sorted[i].owner == p && sorted[j].owner == q
    ensures forall k :: 0 <= k < i ==> sorted[k].owner != p
    ensures forall k :: 0 <= k < j ==> sorted[k].owner != q
  {
    SortShowsOwners(sorted, timeline, p);
    SortShowsOwners(sorted, timeline, q);
    EarliestIsFirst(sorted, timeline, p);
    EarliestIsFirst(sorted, timeline, q);
    hide OwnerEvents, Earliest, Rearranged;
    i := FirstEvent(sorted, p);
    j := FirstEvent(sorted, q);
  }

  lemma Shown(sorted: seq<Event>, timeline: seq<Event>)
    requires Rearranged(sorted, timeline)
    ensures AppearIn(timeline, Appearing(sorted))
  {
  }

  lemma TieLeavesItOpen(timeline: seq<Event>, p: string, q: string) returns (a: seq<string>, b: seq<string>)
    requires Tied(timeline, p, q)
    ensures AppearIn(timeline, a) && AppearIn(timeline, b) && a != b
  {
    hide Appearing, AppearIn, OwnerEvents, Earliest, Rearranged;
    var sorted := SomeSort(timeline);
    var i, j := TiedAt(sorted, timeline, p, q);
    var swapped: seq<Event>;
    if i < j {
      swapped := SwapReorders(sorted, timeline, p, q, i, j);
    } else {
      swapped := SwapReorders(sorted, timeline, q, p, j, i);
    }
    Shown(sorted, timeline);
    Shown(swapped, timeline);
    a, b := Appearing(sorted), Appearing(swapped);
  }

  function EventOf(owner: string): Event {
    Event(owner, 0, "commit", owner, "r", "", "", 0, 0, "")
  }

  /** One event each of two owners, at the same time. */
  lemma TwoOwnersTied()
    ensures Tied([EventOf("a"), EventOf("b")], "a", "b")
  {
    var timeline := [EventOf("a"), EventOf("b")];
    assert timeline[..1] == [EventOf("a")] && [EventOf("a")][..0] == [];
    assert OwnerEvents(timeline, "a") == [EventOf("a")] && OwnerEvents(timeline, "b") == [EventOf("b")];
    assert OwnerTimes(timeline, "a") == [0] && OwnerTimes(timeline, "b") == [0];
    assert "a" != "b" && Sorted([0])[0] == 0 && [0][..0] == [];
  }

  /** The owners come out in one order, however the timeline was ordered and however the sort
      treats equal times, if and only if no two owners have the same first time. */
  lemma OwnerOrderDeterminedIffNoTie(timeline: seq<Event>)
    ensures (forall a, b :: AppearIn(timeline, a) && AppearIn(timeline, b) ==> a == b)
      <==> !exists p, q :: Tied(timeline, p, q)
  {
    hide Earliest;
    if p, q :| Tied(timeline, p, q) {
      var a, b := TieLeavesItOpen(timeline, p, q);
    } else {
      forall a, b | AppearIn(timeline, a) && AppearIn(timeline, b)
        ensures a == b
      {
        AppearEarliestFirst(timeline, a);
        AppearEarliestFirst(timeline, b);
        forall p, q | p in a && q in a && p != q
          ensures Earliest(timeline, p) != Earliest(timeline, q)
        {
          assert !Tied(timeline, p, q);
        }
        OrderIsUnique(timeline, a, b);
      }
    }
  }
}

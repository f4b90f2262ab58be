/** The sessionize step: per-owner clustering of event times by a gap, over an unstable sort,
    against the connected components of the closeness relation. */
module Sessionize {
  import opened Common
  import opened Types

  // ---------------------------------------------------------------- sorting

  ghost predicate Ascending(ts: seq<int>) {
    forall i, j :: 0 <= i && j == i + 1 && j < |ts| ==> ts[i] <= ts[j]
  }

  lemma {:induction false} AscendingPairs(ts: seq<int>, i: nat, j: nat)
    requires Ascending(ts) && i <= j < |ts|
    ensures ts[i] <= ts[j]
    decreases j
  {
    if i < j { AscendingPairs(ts, i, j - 1); }
  }

  function Insert(ts: seq<int>, t: int): (r: seq<int>)
    requires Ascending(ts)
    ensures Ascending(r) && multiset(r) == multiset(ts) + multiset{t}
    ensures r != [] && r[|r| - 1] == if ts == [] || ts[|ts| - 1] <= t then t else ts[|ts| - 1]
  {
    if ts == [] || ts[|ts| - 1] <= t then ts + [t]
    else
      assert ts == ts[..|ts| - 1] + [ts[|ts| - 1]];
      Insert(ts[..|ts| - 1], t) + [ts[|ts| - 1]]
  }

  /** The ascending rearrangement. */
  function Sorted(ts: seq<int>): (r: seq<int>)
    ensures Ascending(r) && multiset(r) == multiset(ts)
  {
    if ts == [] then []
    else
      assert ts == ts[..|ts| - 1] + [ts[|ts| - 1]];
      Insert(Sorted(ts[..|ts| - 1]), ts[|ts| - 1])
  }

  lemma LastIsGreatest(a: seq<int>, x: int)
    requires Ascending(a) && x in a
    ensures x <= a[|a| - 1]
  {
    var i :| 0 <= i < |a| && a[i] == x;
    AscendingPairs(a, i, |a| - 1);
  }

  lemma SameSize<T>(a: seq<T>, b: seq<T>)
    requires multiset(a) == multiset(b)
    ensures |a| == |b| && forall x :: x in a <==> x in b
  {
    assert |multiset(a)| == |a| && |multiset(b)| == |b|;
    assert forall x :: x in a <==> x in multiset(a);
    assert forall x :: x in b <==> x in multiset(b);
  }

  lemma DropLast<T>(a: seq<T>)
    requires a != []
    ensures multiset(a) == multiset(a[..|a| - 1]) + multiset{a[|a| - 1]}
  {
    assert a == a[..|a| - 1] + [a[|a| - 1]];
  }

  lemma SameFronts(a: seq<int>, b: seq<int>)
    requires a != [] && b != [] && a[|a| - 1] == b[|b| - 1] && multiset(a) == multiset(b)
    ensures multiset(a[..|a| - 1]) == multiset(b[..|b| - 1])
  {
    DropLast(a);
    DropLast(b);
    var x := a[|a| - 1];
    assert multiset(a[..|a| - 1]) == multiset(a) - multiset{x};
    assert multiset(b[..|b| - 1]) == multiset(b) - multiset{x};
  }

  lemma {:induction false} AscendingUnique(a: seq<int>, b: seq<int>)
    requires Ascending(a) && Ascending(b) && multiset(a) == multiset(b)
    ensures a == b
  {
    SameSize(a, b);
    if a != [] {
      LastIsGreatest(a, b[|b| - 1]);
      LastIsGreatest(b, a[|a| - 1]);
      SameFronts(a, b);
      AscendingUnique(a[..|a| - 1], b[..|b| - 1]);
    }
  }

  ghost predicate ByTime(events: seq<Event>) {
    forall i, j :: 0 <= i && j == i + 1 && j < |events| ==> events[i].ts <= events[j].ts
  }

  lemma TimesAscend(events: seq<Event>)
    requires ByTime(events)
    ensures Ascending(Times(events))
  {
  }

  function Times(events: seq<Event>): seq<int> {
    seq(|events|, i requires 0 <= i < |events| => events[i].ts)
  }

  ghost predicate Rearranged(sorted: seq<Event>, timeline: seq<Event>) {
    ByTime(sorted) && multiset(sorted) == multiset(timeline)
  }

  /** A library sort: the order of events with equal times is left open. */
  method SortByTime(timeline: seq<Event>) returns (sorted: seq<Event>)
    ensures Rearranged(sorted, timeline)
  {
    sorted := [];
    for i := 0 to |timeline|
      invariant ByTime(sorted) && multiset(sorted) == multiset(timeline[..i])
    {
      assert timeline[..i + 1] == timeline[..i] + [timeline[i]];
      sorted := InsertEvent(sorted, timeline[i]);
    }
    assert timeline[..|timeline|] == timeline;
  }

  lemma InsertedBag(sorted: seq<Event>, k: nat, e: Event)
    requires k <= |sorted|
    ensures multiset(sorted[..k] + [e] + sorted[k..]) == multiset(sorted) + multiset{e}
  {
    assert sorted == sorted[..k] + sorted[k..];
  }

  method InsertEvent(sorted: seq<Event>, e: Event) returns (r: seq<Event>)
    requires ByTime(sorted)
    ensures ByTime(r) && multiset(r) == multiset(sorted) + multiset{e}
  {
    var k := |sorted|;
    while k > 0 && sorted[k - 1].ts > e.ts
      invariant 0 <= k <= |sorted|
      invariant k < |sorted| ==> sorted[k].ts > e.ts
    {
      k := k - 1;
    }
    InsertedBag(sorted, k, e);
    r := sorted[..k] + [e] + sorted[k..];
  }

  // ---------------------------------------------------------------- one owner's events

  function OwnerEvents(timeline: seq<Event>, owner: string): seq<Event> {
    if timeline == [] then []
    else
      var last := timeline[|timeline| - 1];
      OwnerEvents(timeline[..|timeline| - 1], owner) + if last.owner == owner then [last] else []
  }

  function OwnerTimes(timeline: seq<Event>, owner: string): seq<int> {
    Times(OwnerEvents(timeline, owner))
  }

  /** The owners in the order of their first events. */
  function Appearing(events: seq<Event>): seq<string> {
    if events == [] then []
    else
      var front, o := Appearing(events[..|events| - 1]), events[|events| - 1].owner;
      if o in front then front else front + [o]
  }

  /** The order in which some sort by time shows the owners. */
  ghost predicate AppearIn(timeline: seq<Event>, owners: seq<string>) {
    exists sorted :: Rearranged(sorted, timeline) && owners == Appearing(sorted)
  }

  /** The owners of a timeline, each once. */
  ghost predicate OwnersOf(timeline: seq<Event>, owners: seq<string>) {
    NoDuplicates(owners) && forall o :: o in owners <==> OwnerEvents(timeline, o) != []
  }

  ghost predicate Grouped(sorted: seq<Event>, owners: seq<string>, byOwner: map<string, seq<Event>>) {
    forall o :: o in owners ==> o in byOwner && byOwner[o] == OwnerEvents(sorted, o)
  }

  lemma NewOwner(owners: seq<string>, o: string)
    requires NoDuplicates(owners) && o !in owners
    ensures NoDuplicates(owners + [o])
  {
  }

  lemma NextOwnerEvents(sorted: seq<Event>, i: nat)
    requires i < |sorted|
    ensures forall o {:trigger OwnerEvents(sorted[..i + 1], o)} ::
              OwnerEvents(sorted[..i + 1], o)
              == OwnerEvents(sorted[..i], o) + if sorted[i].owner == o then [sorted[i]] else []
    ensures Appearing(sorted[..i + 1]) ==
      Appearing(sorted[..i]) + if sorted[i].owner in Appearing(sorted[..i]) then [] else [sorted[i].owner]
  {
    assert sorted[..i + 1][..i] == sorted[..i];
  }

  /** The owners and lists gathered from the first events. */
  ghost predicate Gathered(events: seq<Event>, owners: seq<string>, byOwner: map<string, seq<Event>>) {
    && owners == Appearing(events) && NoDuplicates(owners)
    && (forall o :: o in owners <==> o in byOwner)
    && (forall o {:trigger o in byOwner} {:trigger OwnerEvents(events, o)} ::
          o in byOwner <==> OwnerEvents(events, o) != [])
    && (forall o {:trigger byOwner[o]} :: o in byOwner ==> byOwner[o] == OwnerEvents(events, o))
  }

  lemma GatherOne(sorted: seq<Event>, i: nat, owners: seq<string>, byOwner: map<string, seq<Event>>)
    requires i < |sorted| && Gathered(sorted[..i], owners, byOwner)
    ensures var e := sorted[i];
            Gathered(sorted[..i + 1], if e.owner in byOwner then owners else owners + [e.owner],
                     byOwner[e.owner := (if e.owner in byOwner then byOwner[e.owner] else []) + [e]])
  {
    hide OwnerEvents, Appearing, NoDuplicates;
    NextOwnerEvents(sorted, i);
    if sorted[i].owner !in byOwner { NewOwner(owners, sorted[i].owner); }
  }

  method GroupByOwner(sorted: seq<Event>) returns (owners: seq<string>, byOwner: map<string, seq<Event>>)
    ensures owners == Appearing(sorted) && OwnersOf(sorted, owners) && Grouped(sorted, owners, byOwner)
  {
    owners, byOwner := [], map[];
    for i := 0 to |sorted|
      invariant Gathered(sorted[..i], owners, byOwner)
    {
      var e := sorted[i];
      GatherOne(sorted, i, owners, byOwner);
      var events := [];
      if e.owner in byOwner {
        events := byOwner[e.owner];
      } else {
        owners := owners + [e.owner];
      }
      byOwner := byOwner[e.owner := events + [e]];
    }
    assert sorted[..|sorted|] == sorted;
  }

  // ---------------------------------------------------------------- clustering

  function NewSession(owner: string, start: int, end: int, count: nat, leadIn: int): Session {
    Session(owner, "", start, end, end - start + leadIn, count)
  }

  /** The sessions of one owner's times: each time joins the last session when it is within
      the gap of that session's end and opens a new one otherwise. */
  function Clusters(owner: string, ts: seq<int>, gap: int, leadIn: int): (r: seq<Session>)
    ensures |r| == 0 <==> ts == []
    ensures ts != [] ==> r[|r| - 1].end == ts[|ts| - 1] && r[|r| - 1].eventCount > 0
  {
    if ts == [] then []
    else
      var t := ts[|ts| - 1];
      var r := Clusters(owner, ts[..|ts| - 1], gap, leadIn);
      if r == [] || t - r[|r| - 1].end > gap then r + [NewSession(owner, t, t, 1, leadIn)]
      else r[..|r| - 1] + [NewSession(owner, r[|r| - 1].start, t, r[|r| - 1].eventCount + 1, leadIn)]
  }

  lemma NextTime(owner: string, ts: seq<int>, gap: int, leadIn: int, done: seq<Session>,
                 start: int, end: int, count: nat, t: int)
    requires ts != [] && end == ts[|ts| - 1] && count > 0
    requires Clusters(owner, ts, gap, leadIn) == done + [NewSession(owner, start, end, count, leadIn)]
    ensures Clusters(owner, ts + [t], gap, leadIn) ==
      if t - end > gap then done + [NewSession(owner, start, end, count, leadIn)] + [NewSession(owner, t, t, 1, leadIn)]
      else done + [NewSession(owner, start, t, count + 1, leadIn)]
  {
  }

  lemma FirstTime(owner: string, t: int, gap: int, leadIn: int)
    ensures Clusters(owner, [t], gap, leadIn) == [NewSession(owner, t, t, 1, leadIn)]
  {
  }

  method SessionizeOwner(owner: string, events: seq<Event>, gap: int, leadIn: int) returns (sessions: seq<Session>)
    requires events != []
    ensures sessions == Clusters(owner, Times(events), gap, leadIn)
  {
    hide Clusters;
    sessions := [];
    var start, end, count := events[0].ts, events[0].ts, 1;
    ghost var ts := Times(events);
    FirstTime(owner, start, gap, leadIn);
    assert ts[..1] == [start];
    for i := 1 to |events|
      invariant count > 0 && end == ts[i - 1]
      invariant Clusters(owner, ts[..i], gap, leadIn) == sessions + [NewSession(owner, start, end, count, leadIn)]
    {
      var now := events[i].ts;
      NextTime(owner, ts[..i], gap, leadIn, sessions, start, end, count, now);
      assert ts[..i + 1] == ts[..i] + [now];
      if now - end > gap {
        sessions := sessions + [NewSession(owner, start, end, count, leadIn)];
        start, end, count := now, now, 1;
      } else {
        end, count := now, count + 1;
      }
    }
    assert ts[..|events|] == ts;
    sessions := sessions + [NewSession(owner, start, end, count, leadIn)];
  }

  /** One owner's sessions, whatever the order of the timeline. */
  function OwnerSessions(timeline: seq<Event>, owner: string, gap: int, leadIn: int): seq<Session> {
    Clusters(owner, Sorted(OwnerTimes(timeline, owner)), gap, leadIn)
  }

  /** What the step appends for each owner in turn. */
  function AllClusters(timeline: seq<Event>, owners: seq<string>, gap: int, leadIn: int): seq<Session> {
    if owners == [] then []
    else
      var o := owners[|owners| - 1];
      AllClusters(timeline, owners[..|owners| - 1], gap, leadIn) + OwnerSessions(timeline, o, gap, leadIn)
  }

  // ---------------------------------------------------------------- the order of the timeline does not matter

  lemma {:induction false} OwnerEventCount(a: seq<Event>, o: string, e: Event)
    ensures multiset(OwnerEvents(a, o))[e] == if e.owner == o then multiset(a)[e] else 0
  {
    if a != [] {
      DropLast(a);
      OwnerEventCount(a[..|a| - 1], o, e);
    }
  }

  lemma OwnerEventsPermuted(a: seq<Event>, b: seq<Event>, o: string)
    requires multiset(a) == multiset(b)
    ensures multiset(OwnerEvents(a, o)) == multiset(OwnerEvents(b, o))
  {
    forall e
      ensures multiset(OwnerEvents(a, o))[e] == multiset(OwnerEvents(b, o))[e]
    {
      OwnerEventCount(a, o, e);
      OwnerEventCount(b, o, e);
    }
  }

  lemma TimesAround(a: seq<Event>, k: nat)
    requires k < |a|
    ensures multiset(Times(a)) == multiset(Times(a[..k] + a[k + 1..])) + multiset{a[k].ts}
    ensures multiset(a) == multiset(a[..k] + a[k + 1..]) + multiset{a[k]}
  {
    assert a == a[..k] + [a[k]] + a[k + 1..];
    assert Times(a) == Times(a)[..k] + [a[k].ts] + Times(a)[k + 1..];
    assert Times(a[..k] + a[k + 1..]) == Times(a)[..k] + Times(a)[k + 1..];
  }

  lemma {:induction false} TimesPermuted(a: seq<Event>, b: seq<Event>)
    requires multiset(a) == multiset(b)
    ensures multiset(Times(a)) == multiset(Times(b))
  {
    SameSize(a, b);
    if a != [] {
      var k := |a| - 1;
      assert a[k] in b;
      var j :| 0 <= j < |b| && b[j] == a[k];
      TimesAround(a, k);
      TimesAround(b, j);
      assert multiset(a[..k] + a[k + 1..]) == multiset(a) - multiset{a[k]};
      assert multiset(b[..j] + b[j + 1..]) == multiset(b) - multiset{a[k]};
      TimesPermuted(a[..k] + a[k + 1..], b[..j] + b[j + 1..]);
    }
  }

  /** One owner's sessions are the same for every order of the timeline. */
  lemma OrderDoesNotMatter(a: seq<Event>, b: seq<Event>, o: string)
    requires multiset(a) == multiset(b)
    ensures Sorted(OwnerTimes(a, o)) == Sorted(OwnerTimes(b, o))
    ensures forall gap, leadIn :: OwnerSessions(a, o, gap, leadIn) == OwnerSessions(b, o, gap, leadIn)
    ensures OwnerEvents(a, o) != [] <==> OwnerEvents(b, o) != []
  {
    OwnerEventsPermuted(a, b, o);
    SameSize(OwnerEvents(a, o), OwnerEvents(b, o));
    TimesPermuted(OwnerEvents(a, o), OwnerEvents(b, o));
    AscendingUnique(Sorted(OwnerTimes(a, o)), Sorted(OwnerTimes(b, o)));
  }

  lemma {:induction false} OwnerEventsByTime(sorted: seq<Event>, o: string)
    requires ByTime(sorted)
    ensures ByTime(OwnerEvents(sorted, o))
    ensures sorted != [] && OwnerEvents(sorted, o) != [] ==>
      OwnerEvents(sorted, o)[|OwnerEvents(sorted, o)| - 1].ts <= sorted[|sorted| - 1].ts
  {
    if sorted != [] {
      OwnerEventsByTime(sorted[..|sorted| - 1], o);
    }
  }

  /** The sort puts every owner's times in ascending order. */
  lemma SortShowsOwners(sorted: seq<Event>, timeline: seq<Event>, o: string)
    requires Rearranged(sorted, timeline)
    ensures OwnerTimes(sorted, o) == Sorted(OwnerTimes(timeline, o))
    ensures OwnerEvents(sorted, o) != [] <==> OwnerEvents(timeline, o) != []
  {
    OrderDoesNotMatter(sorted, timeline, o);
    OwnerEventsByTime(sorted, o);
    TimesAscend(OwnerEvents(sorted, o));
    AscendingUnique(Sorted(OwnerTimes(sorted, o)), OwnerTimes(sorted, o));
  }

  lemma NextOwner(timeline: seq<Event>, owners: seq<string>, i: nat, gap: int, leadIn: int)
    requires i < |owners|
    ensures AllClusters(timeline, owners[..i + 1], gap, leadIn)
         == AllClusters(timeline, owners[..i], gap, leadIn)
            + OwnerSessions(timeline, owners[i], gap, leadIn)
  {
    assert owners[..i + 1][..i] == owners[..i];
  }

  /** Each owner of the timeline, in the order in which the sort shows them, gets the
      clusters of its ascending times. */
  method Apply(s: State, gap: int, leadIn: int) returns (ghost owners: seq<string>)
    modifies s`sessions
    ensures AppearIn(s.timeline, owners) && OwnersOf(s.timeline, owners)
    ensures s.sessions == old(s.sessions) + AllClusters(s.timeline, owners, gap, leadIn)
  {
    hide Grouped, OwnersOf, OwnerEvents, OwnerSessions, Rearranged, AllClusters, Appearing;
    NoOwners(s.timeline, gap, leadIn);
    if |s.timeline| == 0 {
      owners := [];
      return;
    }
    var sorted := SortByTime(s.timeline);
    var order, byOwner := GroupByOwner(sorted);
    owners := order;
    SameOwners(sorted, s.timeline, order);
    assert order[..0] == [];
    for i := 0 to |order|
      invariant s.sessions == old(s.sessions) + AllClusters(s.timeline, order[..i], gap, leadIn)
    {
      OwnerAt(sorted, s.timeline, order, byOwner, i, gap, leadIn);
      NextOwner(s.timeline, order, i, gap, leadIn);
      var clusters := SessionizeOwner(order[i], byOwner[order[i]], gap, leadIn);
      s.sessions := s.sessions + clusters;
    }
    assert order[..|order|] == order;
  }

  lemma NoOwners(timeline: seq<Event>, gap: int, leadIn: int)
    ensures AllClusters(timeline, [], gap, leadIn) == []
    ensures timeline == [] ==> OwnersOf(timeline, []) && AppearIn(timeline, [])
  {
    if timeline == [] { assert Rearranged([], timeline) && Appearing([]) == []; }
  }

  lemma OwnerAt(sorted: seq<Event>, timeline: seq<Event>, owners: seq<string>, byOwner: map<string, seq<Event>>, i: nat,
                gap: int, leadIn: int)
    requires Rearranged(sorted, timeline) && i < |owners|
    requires OwnersOf(sorted, owners) && Grouped(sorted, owners, byOwner)
    ensures owners[i] in byOwner && byOwner[owners[i]] != []
    ensures Clusters(owners[i], Times(byOwner[owners[i]]), gap, leadIn)
      == OwnerSessions(timeline, owners[i], gap, leadIn)
  {
    assert owners[i] in owners;
    SortShowsOwners(sorted, timeline, owners[i]);
  }

  lemma SameOwners(sorted: seq<Event>, timeline: seq<Event>, owners: seq<string>)
    requires Rearranged(sorted, timeline) && OwnersOf(sorted, owners)
    ensures OwnersOf(timeline, owners)
  {
    forall o
      ensures o in owners <==> OwnerEvents(timeline, o) != []
    {
      SortShowsOwners(sorted, timeline, o);
    }
  }

  // ---------------------------------------------------------------- clusters are connected components

  predicate Close(ts: seq<int>, gap: int, i: nat, j: nat)
    requires i < |ts| && j < |ts|
  {
    -gap <= ts[i] - ts[j] <= gap
  }

  ghost predicate Walk(ts: seq<int>, gap: int, p: seq<nat>) {
    && p != [] && (forall k :: 0 <= k < |p| ==> p[k] < |ts|)
    && forall k, l :: 0 <= k && l == k + 1 && l < |p| ==> Close(ts, gap, p[k], p[l])
  }

  /** Some walk of close times leads from `i` to `j`. */
  ghost predicate Connected(ts: seq<int>, gap: int, i: nat, j: nat) {
    exists p :: Walk(ts, gap, p) && p[0] == i && p[|p| - 1] == j
  }

  /** The position of the first time of session `q`. */
  function FirstOf(sessions: seq<Session>, q: nat): nat
    requires q <= |sessions|
  {
    if q == 0 then 0 else FirstOf(sessions, q - 1) + sessions[q - 1].eventCount
  }

  /** The time at position `i` belongs to session `q`. */
  predicate Member(sessions: seq<Session>, q: nat, i: nat)
    requires q < |sessions|
  {
    FirstOf(sessions, q) <= i < FirstOf(sessions, q + 1)
  }

  /** A step between neighbours that is longer than the gap. */
  predicate Break(ts: seq<int>, gap: int, i: nat) {
    0 < i < |ts| && ts[i] - ts[i - 1] > gap
  }

  /** Session `q` spans the times from its first position on: none of its neighbours is
      further apart than the gap, and it begins at a break. */
  ghost predicate Spans(ts: seq<int>, gap: int, leadIn: int, owner: string, s: Session, q: nat, i: nat, j: nat) {
    && i < j <= |ts|
    && s == NewSession(owner, ts[i], ts[j - 1], j - i, leadIn)
    && (q > 0 ==> Break(ts, gap, i))
    && (forall k :: i < k < j ==> !Break(ts, gap, k))
  }

  ghost predicate SpansAt(ts: seq<int>, gap: int, leadIn: int, owner: string, r: seq<Session>, q: nat) {
    q < |r| && Spans(ts, gap, leadIn, owner, r[q], q, FirstOf(r, q), FirstOf(r, q + 1))
  }

  ghost predicate Summarises(ts: seq<int>, gap: int, leadIn: int, owner: string, r: seq<Session>) {
    && FirstOf(r, |r|) == |ts|
    && (forall q {:trigger SpansAt(ts, gap, leadIn, owner, r, q)} :: 0 <= q < |r| ==>
          SpansAt(ts, gap, leadIn, owner, r, q))
  }

  lemma {:induction false} FirstOfPrefix(r: seq<Session>, other: seq<Session>, q: nat)
    requires q <= |r| && q <= |other| && r[..q] == other[..q]
    ensures FirstOf(r, q) == FirstOf(other, q)
  {
    if q > 0 {
      assert r[..q - 1] == r[..q][..q - 1] && other[..q - 1] == other[..q][..q - 1];
      assert r[q - 1] == r[..q][q - 1] == other[q - 1];
      FirstOfPrefix(r, other, q - 1);
    }
  }

  lemma SummaryOpens(ts: seq<int>, gap: int, leadIn: int, owner: string, r: seq<Session>, t: int)
    requires Summarises(ts, gap, leadIn, owner, r)
    requires r == [] <==> ts == []
    requires r != [] ==> t - ts[|ts| - 1] > gap
    ensures Summarises(ts + [t], gap, leadIn, owner, r + [NewSession(owner, t, t, 1, leadIn)])
  {
    var c := r + [NewSession(owner, t, t, 1, leadIn)];
    forall q | 0 <= q <= |r|
      ensures FirstOf(c, q) == FirstOf(r, q)
    {
      FirstOfPrefix(c, r, q);
    }
    forall q | 0 <= q < |c|
      ensures SpansAt(ts + [t], gap, leadIn, owner, c, q)
    {
      assert FirstOf(c, q) == FirstOf(r, q);
      if q < |r| {
        assert SpansAt(ts, gap, leadIn, owner, r, q) && r[q] == c[q] && FirstOf(c, q + 1) == FirstOf(r, q + 1);
        forall k | FirstOf(r, q) < k < FirstOf(r, q + 1)
          ensures !Break(ts + [t], gap, k)
        {
          assert !Break(ts, gap, k);
        }
      }
    }
  }

  lemma SpanStays(ts: seq<int>, gap: int, leadIn: int, owner: string, s: Session, q: nat, i: nat, j: nat, t: int)
    requires Spans(ts, gap, leadIn, owner, s, q, i, j)
    ensures Spans(ts + [t], gap, leadIn, owner, s, q, i, j)
  {
    assert forall k :: i < k < j ==> Break(ts + [t], gap, k) == Break(ts, gap, k);
  }

  lemma SpanGrows(ts: seq<int>, gap: int, leadIn: int, owner: string, s: Session, q: nat, i: nat, t: int)
    requires Spans(ts, gap, leadIn, owner, s, q, i, |ts|) && t - ts[|ts| - 1] <= gap
    ensures Spans(ts + [t], gap, leadIn, owner, NewSession(owner, s.start, t, s.eventCount + 1, leadIn), q, i,
                  |ts| + 1)
  {
    assert forall k :: i < k < |ts| ==> Break(ts + [t], gap, k) == Break(ts, gap, k);
  }

  lemma SummaryExtends(ts: seq<int>, gap: int, leadIn: int, owner: string, r: seq<Session>, t: int)
    requires Summarises(ts, gap, leadIn, owner, r) && r != [] && ts != [] && t - ts[|ts| - 1] <= gap
    ensures Summarises(ts + [t], gap, leadIn, owner,
                       r[..|r| - 1] + [NewSession(owner, r[|r| - 1].start, t, r[|r| - 1].eventCount + 1, leadIn)])
  {
    hide Spans;
    var last := |r| - 1;
    var c := r[..last] + [NewSession(owner, r[last].start, t, r[last].eventCount + 1, leadIn)];
    forall q | 0 <= q <= last
      ensures FirstOf(c, q) == FirstOf(r, q)
    {
      assert r[..q] == r[..last][..q] == c[..q];
      FirstOfPrefix(c, r, q);
    }
    assert FirstOf(c, last + 1) == FirstOf(r, last + 1) + 1;
    hide FirstOf;
    forall q | 0 <= q < |c|
      ensures SpansAt(ts + [t], gap, leadIn, owner, c, q)
    {
      assert SpansAt(ts, gap, leadIn, owner, r, q);
      if q < last {
        SpanStays(ts, gap, leadIn, owner, r[q], q, FirstOf(r, q), FirstOf(r, q + 1), t);
      } else {
        SpanGrows(ts, gap, leadIn, owner, r[q], q, FirstOf(r, q), t);
      }
    }
  }

  lemma {:induction false} ClustersSummarise(owner: string, ts: seq<int>, gap: int, leadIn: int)
    ensures Summarises(ts, gap, leadIn, owner, Clusters(owner, ts, gap, leadIn))
  {
    if ts != [] {
      var front := ts[..|ts| - 1];
      var last := ts[|ts| - 1];
      assert ts == front + [last];
      ClustersSummarise(owner, front, gap, leadIn);
      var r := Clusters(owner, front, gap, leadIn);
      if r == [] || last - r[|r| - 1].end > gap {
        SummaryOpens(front, gap, leadIn, owner, r, last);
      } else {
        SummaryExtends(front, gap, leadIn, owner, r, last);
      }
    }
  }

  // A walk of close times never crosses a break.
  lemma {:induction false} NoWalkOverBreak(ts: seq<int>, gap: int, p: seq<nat>, b: nat)
    requires Ascending(ts) && Walk(ts, gap, p) && Break(ts, gap, b) && p[0] < b
    ensures p[|p| - 1] < b
    decreases |p|
  {
    if |p| > 1 {
      assert Close(ts, gap, p[0], p[1]);
      AscendingPairs(ts, p[0], b - 1);
      if p[1] >= b { AscendingPairs(ts, b, p[1]); }
      assert Walk(ts, gap, p[1..]);
      NoWalkOverBreak(ts, gap, p[1..], b);
    }
  }

  lemma {:induction false} WalkUp(ts: seq<int>, gap: int, i: nat, j: nat) returns (p: seq<nat>)
    requires Ascending(ts) && i <= j < |ts| && forall k :: i < k <= j ==> !Break(ts, gap, k)
    ensures Walk(ts, gap, p) && p[0] == i && p[|p| - 1] == j
    decreases j - i
  {
    if i == j {
      p := [i];
    } else {
      var q := WalkUp(ts, gap, i, j - 1);
      assert !Break(ts, gap, j) && ts[j - 1] <= ts[j];
      p := q + [j];
    }
  }

  lemma Reverse(ts: seq<int>, gap: int, p: seq<nat>) returns (q: seq<nat>)
    requires Walk(ts, gap, p)
    ensures Walk(ts, gap, q) && q[0] == p[|p| - 1] && q[|q| - 1] == p[0]
  {
    q := seq(|p|, k requires 0 <= k < |p| => p[|p| - 1 - k]);
    forall k, l | 0 <= k && l == k + 1 && l < |q|
      ensures Close(ts, gap, q[k], q[l])
    {
      assert Close(ts, gap, p[|p| - 1 - l], p[|p| - 1 - k]);
    }
  }

  lemma ConnectedBothWays(ts: seq<int>, gap: int, i: nat, j: nat)
    requires Connected(ts, gap, i, j)
    ensures Connected(ts, gap, j, i)
  {
    var p :| Walk(ts, gap, p) && p[0] == i && p[|p| - 1] == j;
    var q := Reverse(ts, gap, p);
  }

  lemma {:induction false} FirstOfGrows(ts: seq<int>, gap: int, leadIn: int, owner: string, r: seq<Session>, q: nat,
                                        q': nat)
    requires Summarises(ts, gap, leadIn, owner, r) && q <= q' <= |r|
    ensures FirstOf(r, q) <= FirstOf(r, q') <= |ts|
    ensures q < q' ==> FirstOf(r, q) < FirstOf(r, q')
    decreases q'
  {
    if q < q' {
      FirstOfGrows(ts, gap, leadIn, owner, r, q, q' - 1);
      assert SpansAt(ts, gap, leadIn, owner, r, q' - 1);
    } else if q < |r| {
      assert SpansAt(ts, gap, leadIn, owner, r, q);
    }
  }

  lemma {:induction false} MemberOfOne(ts: seq<int>, gap: int, leadIn: int, owner: string, r: seq<Session>, n: nat,
                                       i: nat)
      returns (q: nat)
    requires Summarises(ts, gap, leadIn, owner, r) && n <= |r| && i < FirstOf(r, n)
    ensures q < n && Member(r, q, i)
  {
    if i < FirstOf(r, n - 1) { q := MemberOfOne(ts, gap, leadIn, owner, r, n - 1, i); } else { q := n - 1; }
  }

  /** The sessions are exactly the connected components of closeness: every time belongs to
      one session, and two times share a session if and only if they are connected. */
  lemma SessionsAreComponents(owner: string, ts: seq<int>, gap: int, leadIn: int, i: nat, j: nat)
    returns (q: nat, q': nat)
    requires Ascending(ts) && i <= j < |ts|
    ensures var r := Clusters(owner, ts, gap, leadIn); q < |r| && q' < |r| && Member(r, q, i) && Member(r, q', j)
    ensures Connected(ts, gap, i, j) <==> q == q'
    ensures Connected(ts, gap, j, i) <==> q == q'
  {
    var r := Clusters(owner, ts, gap, leadIn);
    ClustersSummarise(owner, ts, gap, leadIn);
    q := MemberOfOne(ts, gap, leadIn, owner, r, |r|, i);
    q' := MemberOfOne(ts, gap, leadIn, owner, r, |r|, j);
    if q' < q { FirstOfGrows(ts, gap, leadIn, owner, r, q' + 1, q); assert false; }
    if q == q' {
      assert SpansAt(ts, gap, leadIn, owner, r, q);
      var p := WalkUp(ts, gap, i, j);
      ConnectedBothWays(ts, gap, i, j);
    } else {
      FirstOfGrows(ts, gap, leadIn, owner, r, q + 1, q');
      assert SpansAt(ts, gap, leadIn, owner, r, q');
      var b := FirstOf(r, q');
      if Connected(ts, gap, j, i) { ConnectedBothWays(ts, gap, j, i); }
      if Connected(ts, gap, i, j) {
        var p :| Walk(ts, gap, p) && p[0] == i && p[|p| - 1] == j;
        NoWalkOverBreak(ts, gap, p, b);
      }
    }
  }

  /** A session starts at the least and ends at the greatest of its times, counts them all,
      and lasts from start to end plus the lead-in. */
  lemma SessionSpansMembers(owner: string, ts: seq<int>, gap: int, leadIn: int, q: nat)
    requires Ascending(ts)
    ensures var r := Clusters(owner, ts, gap, leadIn);
            q < |r| ==>
              && FirstOf(r, q) < FirstOf(r, q + 1) <= |ts|
              && r[q].owner == owner && r[q].repo == "" && r[q].eventCount == FirstOf(r, q + 1) - FirstOf(r, q)
              && (forall i :: 0 <= i < |ts| && Member(r, q, i) ==> r[q].start <= ts[i] <= r[q].end)
              && r[q].start == ts[FirstOf(r, q)] && r[q].end == ts[FirstOf(r, q + 1) - 1]
              && r[q].durationSeconds == r[q].end - r[q].start + leadIn && r[q].start <= r[q].end
  {
    hide Clusters, FirstOf, Break;
    var r := Clusters(owner, ts, gap, leadIn);
    ClustersSummarise(owner, ts, gap, leadIn);
    if q < |r| {
      assert SpansAt(ts, gap, leadIn, owner, r, q);
      hide Summarises;
      var a, b := FirstOf(r, q), FirstOf(r, q + 1);
      AscendingPairs(ts, a, b - 1);
      forall i | a <= i < b
        ensures ts[a] <= ts[i] <= ts[b - 1]
      {
        AscendingPairs(ts, a, i);
        AscendingPairs(ts, i, b - 1);
      }
    }
  }

  /** No event is lost or counted twice. */
  lemma EveryEventCounted(owner: string, ts: seq<int>, gap: int, leadIn: int)
    ensures var r := Clusters(owner, ts, gap, leadIn); FirstOf(r, |r|) == |ts|
  {
    ClustersSummarise(owner, ts, gap, leadIn);
  }
}

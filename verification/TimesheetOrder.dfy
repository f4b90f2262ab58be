/** The timesheet does not depend on the order of the timeline: neither on the order of the
    events, nor on how the sort lists owners with the same first time. */
module TimesheetOrder {
  import opened Common
  import opened Types
  import opened KeyOrder
  import OffTime
  import Sessionize
  import SplitByActiveDays
  import opened Templates

  // ---------------------------------------------------------------- sums over owners

  function SumOver(owners: seq<string>, f: string -> real): real {
    if owners == [] then 0.0 else SumOver(owners[..|owners| - 1], f) + f(owners[|owners| - 1])
  }

  function Without(owners: seq<string>, i: nat): seq<string>
    requires i < |owners|
  {
    owners[..i] + owners[i + 1..]
  }

  lemma {:induction false} SumWithout(owners: seq<string>, i: nat, f: string -> real)
    requires i < |owners|
    ensures SumOver(owners, f) == SumOver(Without(owners, i), f) + f(owners[i])
  {
    var n := |owners| - 1;
    WithoutEnds(owners, i);
    hide Without;
    if i < n { SumWithout(owners[..n], i, f); }
  }

  lemma WithoutEnds(owners: seq<string>, i: nat)
    requires i < |owners|
    ensures var n := |owners| - 1;
            |Without(owners, i)| == n
            && if i == n then Without(owners, i) == owners[..n]
               else Without(owners, i)[..n - 1] == Without(owners[..n], i) && Without(owners, i)[n - 1] == owners[n]
  {
    var n := |owners| - 1;
    if i == n {
      assert owners[..n] + owners[n + 1..] == owners[..n];
    } else {
      assert Without(owners, i)[..n - 1] == Without(owners[..n], i);
    }
  }

  lemma WithoutMembers(owners: seq<string>, i: nat)
    requires i < |owners| && NoDuplicates(owners)
    ensures NoDuplicates(Without(owners, i))
    ensures forall o :: o in Without(owners, i) <==> o in owners && o != owners[i]
  {
    assert forall k :: i < k < |owners| ==> owners[k] == Without(owners, i)[k - 1];
  }

  lemma {:induction false} SumPermuted(a: seq<string>, b: seq<string>, f: string -> real, g: string -> real)
    requires NoDuplicates(a) && NoDuplicates(b) && forall o :: o in a <==> o in b
    requires forall o :: f(o) == g(o)
    ensures SumOver(a, f) == SumOver(b, g)
    decreases |a|
  {
    if a == [] {
      assert forall o :: o !in b;
      if b != [] { SomeMember(b); }
    } else {
      var n := |a| - 1;
      assert a[n] in b;
      var j :| 0 <= j < |b| && b[j] == a[n];
      SumWithout(b, j, g);
      WithoutMembers(a, n);
      WithoutMembers(b, j);
      assert Without(a, n) == a[..n];
      SumPermuted(a[..n], Without(b, j), f, g);
    }
  }

  // ---------------------------------------------------------------- a day's sessions, owner by owner

  /** One owner's sessions without the off-hours. */
  function OwnPart(timeline: seq<Event>, offHours: seq<OffWindow>, o: string): seq<Session> {
    OffTime.ExcludeAll(Sessionize.OwnerSessions(timeline, o, GAP_SECONDS, LEAD_IN_SECONDS), offHours)
  }

  function AllParts(timeline: seq<Event>, offHours: seq<OffWindow>, owners: seq<string>): seq<Session> {
    OffTime.ExcludeAll(Sessionize.AllClusters(timeline, owners, GAP_SECONDS, LEAD_IN_SECONDS), offHours)
  }

  function OwnSeconds(timeline: seq<Event>, offHours: seq<OffWindow>, o: string, day: Key): real {
    BucketSum(SplitByActiveDays.Items(OwnPart(timeline, offHours, o)), day)
  }

  lemma {:induction false} BucketAppend(x: seq<Item>, y: seq<Item>, key: Key)
    ensures BucketSum(x + y, key) == BucketSum(x, key) + BucketSum(y, key)
  {
    if y == [] {
      assert x + y == x;
    } else {
      BucketAppend(x, y[..|y| - 1], key);
      assert (x + y)[..|x + y| - 1] == x + y[..|y| - 1];
    }
  }

  lemma ExcludeAppend(a: seq<Session>, b: seq<Session>, offHours: seq<OffWindow>)
    ensures OffTime.ExcludeAll(a + b, offHours) == OffTime.ExcludeAll(a, offHours) + OffTime.ExcludeAll(b, offHours)
  {
    hide OffTime.Excluded;
  }

  lemma ItemsAppend(a: seq<Session>, b: seq<Session>)
    ensures SplitByActiveDays.Items(a + b) == SplitByActiveDays.Items(a) + SplitByActiveDays.Items(b)
  {
  }

  lemma StartsAppend(a: seq<Session>, b: seq<Session>, day: Key)
    ensures SplitByActiveDays.StartsOn(a + b, day) <==>
      SplitByActiveDays.StartsOn(a, day) || SplitByActiveDays.StartsOn(b, day)
  {
    var all := a + b;
    assert forall i :: 0 <= i < |a| ==> all[i] == a[i];
    assert forall i :: 0 <= i < |b| ==> all[|a| + i] == b[i];
    assert forall i :: |a| <= i < |all| ==> all[i] == b[i - |a|];
  }

  lemma NextPart(timeline: seq<Event>, offHours: seq<OffWindow>, owners: seq<string>)
    requires owners != []
    ensures var front, o := owners[..|owners| - 1], owners[|owners| - 1];
            AllParts(timeline, offHours, owners) == AllParts(timeline, offHours, front) + OwnPart(timeline, offHours, o)
  {
    var front, o := owners[..|owners| - 1], owners[|owners| - 1];
    hide OffTime.ExcludeAll, Sessionize.OwnerSessions;
    ExcludeAppend(Sessionize.AllClusters(timeline, front, GAP_SECONDS, LEAD_IN_SECONDS),
                  Sessionize.OwnerSessions(timeline, o, GAP_SECONDS, LEAD_IN_SECONDS), offHours);
  }

  lemma NoParts(timeline: seq<Event>, offHours: seq<OffWindow>)
    ensures AllParts(timeline, offHours, []) == []
  {
  }

  lemma {:induction false} SecondsByOwner(timeline: seq<Event>, offHours: seq<OffWindow>, owners: seq<string>, day: Key,
                                          f: string -> real)
    requires forall o :: f(o) == OwnSeconds(timeline, offHours, o, day)
    ensures BucketSum(SplitByActiveDays.Items(AllParts(timeline, offHours, owners)), day) == SumOver(owners, f)
  {
    hide AllParts, OwnPart;
    if owners == [] {
      NoParts(timeline, offHours);
    } else {
      var front, o := owners[..|owners| - 1], owners[|owners| - 1];
      hide SplitByActiveDays.Items, BucketSum;
      SecondsByOwner(timeline, offHours, front, day, f);
      NextPart(timeline, offHours, owners);
      ItemsAppend(AllParts(timeline, offHours, front), OwnPart(timeline, offHours, o));
      BucketAppend(SplitByActiveDays.Items(AllParts(timeline, offHours, front)),
                   SplitByActiveDays.Items(OwnPart(timeline, offHours, o)), day);
    }
  }

  /** Some listed owner has a session that starts on the day. */
  ghost predicate SomeStarts(timeline: seq<Event>, offHours: seq<OffWindow>, owners: seq<string>, day: Key) {
    exists o :: o in owners && SplitByActiveDays.StartsOn(OwnPart(timeline, offHours, o), day)
  }

  lemma {:induction false} StartsByOwner(timeline: seq<Event>, offHours: seq<OffWindow>, owners: seq<string>, day: Key)
    ensures SplitByActiveDays.StartsOn(AllParts(timeline, offHours, owners), day)
      <==> SomeStarts(timeline, offHours, owners, day)
  {
    hide AllParts, OwnPart;
    if owners == [] {
      NoParts(timeline, offHours);
    } else {
      var front, o := owners[..|owners| - 1], owners[|owners| - 1];
      hide SplitByActiveDays.StartsOn;
      StartsByOwner(timeline, offHours, front, day);
      NextPart(timeline, offHours, owners);
      StartsAppend(AllParts(timeline, offHours, front), OwnPart(timeline, offHours, o), day);
      assert owners == front + [o];
    }
  }

  // ---------------------------------------------------------------- the theorem

  lemma SameParts(timeline1: seq<Event>, timeline2: seq<Event>, offHours: seq<OffWindow>, o: string)
    requires multiset(timeline1) == multiset(timeline2)
    ensures OwnPart(timeline1, offHours, o) == OwnPart(timeline2, offHours, o)
    ensures Sessionize.OwnerEvents(timeline1, o) != [] <==> Sessionize.OwnerEvents(timeline2, o) != []
  {
    Sessionize.OrderDoesNotMatter(timeline1, timeline2, o);
  }

  lemma SameDay(timeline1: seq<Event>, timeline2: seq<Event>, offHours: seq<OffWindow>, a: seq<string>, b: seq<string>,
                day: Key)
    requires multiset(timeline1) == multiset(timeline2)
    requires Sessionize.OwnersOf(timeline1, a) && Sessionize.OwnersOf(timeline2, b)
    ensures BucketSum(SplitByActiveDays.Items(AllParts(timeline1, offHours, a)), day)
         == BucketSum(SplitByActiveDays.Items(AllParts(timeline2, offHours, b)), day)
    ensures SplitByActiveDays.StartsOn(AllParts(timeline1, offHours, a), day)
       <==> SplitByActiveDays.StartsOn(AllParts(timeline2, offHours, b), day)
  {
    forall o
      ensures OwnPart(timeline1, offHours, o) == OwnPart(timeline2, offHours, o)
      ensures o in a <==> o in b
    {
      SameParts(timeline1, timeline2, offHours, o);
    }
    hide OwnPart, AllParts, SplitByActiveDays.StartsOn, SplitByActiveDays.Items, BucketSum, Sessionize.OwnerEvents,
         SumOver;
    StartsByOwner(timeline1, offHours, a, day);
    StartsByOwner(timeline2, offHours, b, day);
    assert forall o :: OwnSeconds(timeline1, offHours, o, day) == OwnSeconds(timeline2, offHours, o, day);
    var f := o => OwnSeconds(timeline1, offHours, o, day);
    hide OwnSeconds;
    SecondsByOwner(timeline1, offHours, a, day, f);
    SecondsByOwner(timeline2, offHours, b, day, f);
    SumPermuted(a, b, f, f);
  }

  lemma {:induction false} SameSumOverKeys(x: seq<Item>, y: seq<Item>, keys: seq<Key>)
    requires forall k :: BucketSum(x, k) == BucketSum(y, k)
    ensures SumOverKeys(x, keys) == SumOverKeys(y, keys)
  {
    hide BucketSum;
    if keys != [] { SameSumOverKeys(x, y, keys[..|keys| - 1]); }
  }

  lemma SameRows(sessions1: seq<Session>, sessions2: seq<Session>, days: seq<Key>, rate: real)
    requires SplitByActiveDays.ActiveDays(sessions1, days) && SplitByActiveDays.ActiveDays(sessions2, days)
    requires forall k ::
      BucketSum(SplitByActiveDays.Items(sessions1), k) == BucketSum(SplitByActiveDays.Items(sessions2), k)
    ensures forall k :: RatedDay(sessions1, k, rate) == RatedDay(sessions2, k, rate)
    ensures TotalSeconds(sessions1) == TotalSeconds(sessions2)
  {
    DaysCoverSessions(sessions1, days);
    DaysCoverSessions(sessions2, days);
    hide SplitByActiveDays.Items, SplitByActiveDays.ActiveDays, BucketSum, SumOverKeys, Total;
    BucketsConserve(SplitByActiveDays.Items(sessions1), days);
    BucketsConserve(SplitByActiveDays.Items(sessions2), days);
    SameSumOverKeys(SplitByActiveDays.Items(sessions1), SplitByActiveDays.Items(sessions2), days);
  }

  /** Two orders of the same events give the same rows and the same dollars. */
  lemma TimesheetIgnoresOrder(timeline1: seq<Event>, timeline2: seq<Event>, offHours: seq<OffWindow>, rate: real,
                              sessions1: seq<Session>, rows1: seq<Row>, dollars1: real, a: seq<string>, days1: seq<Key>,
                              sessions2: seq<Session>, rows2: seq<Row>, dollars2: real, b: seq<string>, days2: seq<Key>)
    requires multiset(timeline1) == multiset(timeline2)
    requires IsTimesheet(timeline1, offHours, rate, sessions1, rows1, dollars1, a, days1)
    requires IsTimesheet(timeline2, offHours, rate, sessions2, rows2, dollars2, b, days2)
    ensures days1 == days2 && rows1 == rows2 && dollars1 == dollars2
  {
    hide Sessionize.AppearIn, Sessionize.OwnersOf, Worth, TotalSeconds, RatedDay, SplitByActiveDays.StartsOn,
         SplitByActiveDays.Items;
    assert sessions1 == AllParts(timeline1, offHours, a) && sessions2 == AllParts(timeline2, offHours, b);
    hide AllParts;
    forall k
      ensures BucketSum(SplitByActiveDays.Items(sessions1), k) == BucketSum(SplitByActiveDays.Items(sessions2), k)
      ensures k in days1 <==> k in days2
    {
      SameDay(timeline1, timeline2, offHours, a, b, k);
    }
    hide BucketSum;
    SortedKeysUnique(days1, days2);
    SameRows(sessions1, sessions2, days1, rate);
  }
}

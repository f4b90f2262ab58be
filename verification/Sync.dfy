/** Incremental sync: per repository, list what is new since a cursor, store it, and move the
    cursor on, while any call to the client or the store may fail. */
module Sync {
  import opened Common
  import opened Types

  datatype RepoRef = RepoRef(owner: string, repo: string)

  function RepoOf(e: Event): RepoRef {
    RepoRef(e.owner, e.repo)
  }

  type Events = map<string, Event>
  type Cursors = map<RepoRef, int>

  /** What the calls of one repository's sync answer. A failed write may have left part of
      the events behind, or the cursor written all the same. */
  datatype Calls = Calls(
    getFails: bool, listFails: bool, listed: seq<Event>,
    upsertFails: bool, kept: set<string>,
    cursorFails: bool, cursorKept: bool)

  /** No recorded cursor reads as 0, "from the beginning". */
  function CursorOf(cursors: Cursors, r: RepoRef): int {
    if r in cursors then cursors[r] else 0
  }

  function Upserted(events: Events, evs: seq<Event>): Events {
    if evs == [] then events else Upserted(events, evs[..|evs| - 1])[evs[|evs| - 1].id := evs[|evs| - 1]]
  }

  /** No later event of the batch has its id. */
  predicate LastOfItsId(evs: seq<Event>, i: nat)
    requires i < |evs|
  {
    forall j :: i < j < |evs| ==> evs[j].id != evs[i].id
  }

  ghost predicate HasId(evs: seq<Event>, id: string) {
    exists e :: e in evs && e.id == id
  }

  /** `id` holds the last event of the batch with that id. */
  ghost predicate HoldsLast(events: Events, evs: seq<Event>, id: string) {
    exists i :: 0 <= i < |evs| && evs[i].id == id && LastOfItsId(evs, i) && id in events && events[id] == evs[i]
  }

  ghost predicate AsBefore(before: Events, after: Events, id: string) {
    if id in before then id in after && after[id] == before[id] else id !in after
  }

  lemma LastStays(events: Events, front: seq<Event>, last: Event, id: string)
    requires HoldsLast(events, front, id) && last.id != id
    ensures HoldsLast(events[last.id := last], front + [last], id)
  {
    var i :| 0 <= i < |front| && front[i].id == id && LastOfItsId(front, i) && events[id] == front[i];
    assert LastOfItsId(front + [last], i);
    assert (front + [last])[i] == front[i];
  }

  lemma LastWins(events: Events, front: seq<Event>, last: Event)
    ensures HoldsLast(events[last.id := last], front + [last], last.id)
  {
    assert LastOfItsId(front + [last], |front|);
    assert (front + [last])[|front|] == last;
  }

  /** The last event of an id in the batch wins over what was there; without one the id is as
      before. */
  lemma {:induction false} UpsertsLast(before: Events, evs: seq<Event>, id: string)
    ensures if HasId(evs, id) then HoldsLast(Upserted(before, evs), evs, id)
            else AsBefore(before, Upserted(before, evs), id)
  {
    if evs != [] {
      var front, last := evs[..|evs| - 1], evs[|evs| - 1];
      assert evs == front + [last];
      UpsertsLast(before, front, id);
      if last.id == id { LastWins(Upserted(before, front), front, last); }
      else if HasId(evs, id) {
        assert HasId(front, id);
        LastStays(Upserted(before, front), front, last, id);
      } else {
        assert !HasId(front, id);
      }
    }
  }

  function Kept(evs: seq<Event>, kept: set<string>): seq<Event> {
    if evs == [] then []
    else
      var front := Kept(evs[..|evs| - 1], kept);
      if evs[|evs| - 1].id in kept then front + [evs[|evs| - 1]] else front
  }

  /** Where only some ids are written, those are as if all were, and the others as before. */
  lemma {:induction false} KeptUpserts(before: Events, evs: seq<Event>, kept: set<string>, id: string)
    ensures AsBefore(if id in kept then Upserted(before, evs) else before, Upserted(before, Kept(evs, kept)), id)
  {
    if evs != [] {
      var front, last := evs[..|evs| - 1], evs[|evs| - 1];
      KeptUpserts(before, front, kept, id);
      assert (Kept(front, kept) + [last])[..|Kept(front, kept)|] == Kept(front, kept);
    }
  }

  /** The newest time among `current` and the events. */
  function Latest(current: int, evs: seq<Event>): (latest: int)
    ensures latest >= current && forall e :: e in evs ==> e.ts <= latest
    ensures latest == current || exists e :: e in evs && e.ts == latest
  {
    if evs == [] then current
    else
      assert evs == evs[..|evs| - 1] + [evs[|evs| - 1]];
      Max(Latest(current, evs[..|evs| - 1]), evs[|evs| - 1].ts)
  }

  method LatestEventTS(current: int, evs: seq<Event>) returns (latest: int)
    ensures latest == Latest(current, evs)
  {
    latest := current;
    for i := 0 to |evs|
      invariant latest == Latest(current, evs[..i])
    {
      assert evs[..i + 1][..i] == evs[..i];
      if evs[i].ts > latest { latest := evs[i].ts; }
    }
    assert evs[..|evs|] == evs;
  }

  /** The persisted events and cursors. */
  datatype Stored = Stored(events: Events, cursors: Cursors)

  /** What one repository's sync leaves behind, and how many events it reports unless it fails. */
  function SyncedRepo(st: Stored, r: RepoRef, calls: Calls): (Stored, Option<nat>) {
    var since := CursorOf(st.cursors, r);
    if calls.getFails || calls.listFails then (st, None)
    else if calls.listed == [] then (st, Some(0))
    else if calls.upsertFails then (st.(events := Upserted(st.events, Kept(calls.listed, calls.kept))), None)
    else
      var events := Upserted(st.events, calls.listed);
      var cursors := st.cursors[r := Latest(since, calls.listed)];
      if calls.cursorFails then (Stored(events, if calls.cursorKept then cursors else st.cursors), None)
      else (Stored(events, cursors), Some(|calls.listed|))
  }

  class Store {
    var events: Events
    var cursors: Cursors

    function Now(): Stored
      reads this
    {
      Stored(events, cursors)
    }

    method UpsertEvents(evs: seq<Event>, fails: bool, kept: set<string>) returns (ok: bool)
      modifies this`events
      ensures ok == !fails
      ensures events == Upserted(old(events), if fails then Kept(evs, kept) else evs)
      // a success stores the last event of each id over what was there, and leaves the other ids alone
      ensures ok ==> forall id ::
        if HasId(evs, id) then HoldsLast(events, evs, id) else AsBefore(old(events), events, id)
      // a failure does so for some of the ids
      ensures forall id :: HoldsLast(events, evs, id) || AsBefore(old(events), events, id)
    {
      ok := !fails;
      var written := if fails then Kept(evs, kept) else evs;
      ghost var before := events;
      for i := 0 to |written|
        invariant events == Upserted(before, written[..i])
      {
        assert written[..i + 1][..i] == written[..i];
        events := events[written[i].id := written[i]];
      }
      assert written[..|written|] == written;
      forall id
        ensures !fails ==> if HasId(evs, id) then HoldsLast(events, evs, id) else AsBefore(before, events, id)
        ensures HoldsLast(events, evs, id) || AsBefore(before, events, id)
      {
        WrittenAt(before, evs, fails, kept, id);
      }
    }
  }

  lemma WrittenAt(before: Events, evs: seq<Event>, fails: bool, kept: set<string>, id: string)
    ensures var events := Upserted(before, if fails then Kept(evs, kept) else evs);
            (!fails ==> if HasId(evs, id) then HoldsLast(events, evs, id) else AsBefore(before, events, id))
            && (HoldsLast(events, evs, id) || AsBefore(before, events, id))
  {
    UpsertsLast(before, evs, id);
    if fails {
      KeptUpserts(before, evs, kept, id);
      hide Upserted, Kept;
    }
  }

  /** Reads the cursor, lists, stores the events and only then moves the cursor. */
  method SyncRepo(store: Store, r: RepoRef, calls: Calls) returns (count: Option<nat>)
    modifies store
    ensures (store.Now(), count) == SyncedRepo(old(store.Now()), r, calls)
    // a cursor that has moved leaves no listed event unstored, and none newer than it
    ensures store.cursors != old(store.cursors) ==>
      store.events == Upserted(old(store.events), calls.listed)
      && forall e :: e in calls.listed ==> e.id in store.events && e.ts <= CursorOf(store.cursors, r)
    // the same after a success, moved or not
    ensures count.Some? ==>
      count.value == |calls.listed|
      && forall e :: e in calls.listed ==> e.id in store.events && e.ts <= CursorOf(store.cursors, r)
    // then each listed id holds the last event listed for it
    ensures count.Some? ==> forall e :: e in calls.listed ==> HoldsLast(store.events, calls.listed, e.id)
    // whatever fails, only listed events are written
    ensures forall id :: HoldsLast(store.events, calls.listed, id) || AsBefore(old(store.events), store.events, id)
    // the cursor is where it was or at the newest time listed
    ensures CursorOf(store.cursors, r) != CursorOf(old(store.cursors), r) ==>
      exists e :: e in calls.listed && e.ts == CursorOf(store.cursors, r)
    // no cursor goes back, and no other repository's changes
    ensures CursorOf(store.cursors, r) >= CursorOf(old(store.cursors), r)
    ensures forall q :: q != r ==> CursorOf(store.cursors, q) == CursorOf(old(store.cursors), q)
  {
    forall id
      ensures id in Upserted(store.events, calls.listed)
        <==> id in store.events || exists e :: e in calls.listed && e.id == id
    {
      UpsertedIds(store.events, calls.listed, id);
    }
    if calls.getFails {
      return None;
    }
    var since := CursorOf(store.cursors, r);
    if calls.listFails {
      return None;
    }
    if |calls.listed| == 0 {
      return Some(0);
    }
    var ok := store.UpsertEvents(calls.listed, calls.upsertFails, calls.kept);
    if !ok {
      return None;
    }
    var latest := LatestEventTS(since, calls.listed);
    if calls.cursorFails {
      if calls.cursorKept { store.cursors := store.cursors[r := latest]; }
      return None;
    }
    store.cursors := store.cursors[r := latest];
    return Some(|calls.listed|);
  }

  datatype SyncResult = SyncResult(reposScanned: nat, eventsUpserted: nat, errors: seq<RepoRef>)

  /** Every repository in turn; one that fails is recorded and the rest still sync. */
  function SyncedAll(st: Stored, repos: seq<RepoRef>, calls: seq<Calls>): (r: (Stored, SyncResult))
    requires |repos| == |calls|
    ensures r.1.reposScanned + |r.1.errors| == |repos|
  {
    if repos == [] then (st, SyncResult(0, 0, []))
    else
      var n := |repos| - 1;
      var (before, result) := SyncedAll(st, repos[..n], calls[..n]);
      var (after, count) := SyncedRepo(before, repos[n], calls[n]);
      (after, if count.Some?
              then SyncResult(result.reposScanned + 1, result.eventsUpserted + count.value, result.errors)
              else result.(errors := result.errors + [repos[n]]))
  }

  /** Whether one repository's sync goes through depends on its own calls alone. */
  predicate Succeeds(calls: Calls) {
    !calls.getFails && !calls.listFails && (calls.listed == [] || (!calls.upsertFails && !calls.cursorFails))
  }

  function FailedRepos(repos: seq<RepoRef>, calls: seq<Calls>): seq<RepoRef>
    requires |repos| == |calls|
  {
    if repos == [] then []
    else
      var n := |repos| - 1;
      FailedRepos(repos[..n], calls[..n]) + if Succeeds(calls[n]) then [] else [repos[n]]
  }

  /** The number of events listed for the repositories that go through. */
  function ListedByOthers(calls: seq<Calls>): nat {
    if calls == [] then 0
    else
      var n := |calls| - 1;
      ListedByOthers(calls[..n]) + if Succeeds(calls[n]) then |calls[n].listed| else 0
  }

  /** One repository's failure does not touch the others: the result lists exactly the
      repositories whose own calls failed and counts every event listed for the rest. */
  lemma {:induction false} FailuresAreIsolated(st: Stored, repos: seq<RepoRef>, calls: seq<Calls>)
    requires |repos| == |calls|
    ensures |FailedRepos(repos, calls)| <= |repos|
    ensures SyncedAll(st, repos, calls).1
         == SyncResult(|repos| - |FailedRepos(repos, calls)|, ListedByOthers(calls), FailedRepos(repos, calls))
  {
    if repos != [] {
      var n := |repos| - 1;
      FailuresAreIsolated(st, repos[..n], calls[..n]);
    }
  }

  /** A sync whose user or repositories cannot be found changes nothing. */
  method Sync(store: Store, discovered: Option<seq<RepoRef>>, calls: seq<Calls>) returns (result: Option<SyncResult>)
    requires discovered.Some? ==> |calls| == |discovered.value|
    modifies store
    ensures discovered.None? ==> result.None? && store.Now() == old(store.Now())
    ensures discovered.Some? ==>
      result.Some? && (store.Now(), result.value) == SyncedAll(old(store.Now()), discovered.value, calls)
      && result.value.reposScanned + |result.value.errors| == |discovered.value|
  {
    if discovered.None? {
      return None;
    }
    var repos := discovered.value;
    var scanned, upserted, errors := 0, 0, [];
    for i := 0 to |repos|
      invariant scanned >= 0 && upserted >= 0
      invariant (store.Now(), SyncResult(scanned, upserted, errors))
        == SyncedAll(old(store.Now()), repos[..i], calls[..i])
    {
      assert repos[..i + 1][..i] == repos[..i] && calls[..i + 1][..i] == calls[..i];
      var count := SyncRepo(store, repos[i], calls[i]);
      if count.None? {
        errors := errors + [repos[i]];
      } else {
        scanned, upserted := scanned + 1, upserted + count.value;
      }
    }
    assert repos[..|repos|] == repos && calls[..|repos|] == calls;
    result := Some(SyncResult(scanned, upserted, errors));
  }

  // ---------------------------------------------------------------- the cursor protocol

  /** The remote side: every event the user has, by id. */
  ghost predicate ValidRemote(remote: Events) {
    forall id :: id in remote ==> remote[id].id == id
  }

  /** The contract of listing: exactly what the remote has of `r` at or after `since`. */
  ghost predicate Lists(remote: Events, r: RepoRef, since: int, listed: seq<Event>) {
    forall e :: e in listed <==> e.id in remote && remote[e.id] == e && RepoOf(e) == r && (since == 0 || e.ts >= since)
  }

  ghost predicate Answers(remote: Events, st: Stored, r: RepoRef, calls: Calls) {
    !calls.getFails && !calls.listFails ==> Lists(remote, r, CursorOf(st.cursors, r), calls.listed)
  }

  datatype World = World(remote: Events, stored: Stored)

  datatype Step = Appear(event: Event) | SyncOne(repo: RepoRef, calls: Calls)

  /** New events are not older than their repository's cursor; listing keeps its contract. */
  ghost predicate CanStep(w: World, s: Step) {
    match s
    case Appear(e) => e.id !in w.remote && !Behind(e, w.stored.cursors)
    case SyncOne(r, calls) => Answers(w.remote, w.stored, r, calls)
  }

  function After(w: World, s: Step): World {
    match s
    case Appear(e) => w.(remote := w.remote[e.id := e])
    case SyncOne(r, calls) => w.(stored := SyncedRepo(w.stored, r, calls).0)
  }

  /** The event is older than its repository's cursor, and there is one. */
  predicate Behind(e: Event, cursors: Cursors) {
    CursorOf(cursors, RepoOf(e)) > 0 && e.ts < CursorOf(cursors, RepoOf(e))
  }

  ghost predicate IsStored(w: World, id: string) {
    id in w.remote && id in w.stored.events && w.stored.events[id] == w.remote[id]
  }

  /** Cursors are not negative, stored events are the remote's, and a positive cursor has no
      unstored event behind it. */
  ghost predicate Inv(w: World) {
    && ValidRemote(w.remote)
    && (forall r {:trigger CursorOf(w.stored.cursors, r)} :: CursorOf(w.stored.cursors, r) >= 0)
    && (forall id :: id in w.stored.events ==> IsStored(w, id))
    && (forall id {:trigger IsStored(w, id)} ::
          id in w.remote && Behind(w.remote[id], w.stored.cursors) ==> IsStored(w, id))
  }

  lemma {:induction false} UpsertedHolds(events: Events, evs: seq<Event>, remote: Events)
    requires ValidRemote(remote)
    requires forall id :: id in events ==> id in remote && events[id] == remote[id]
    requires forall e :: e in evs ==> e.id in remote && remote[e.id] == e
    ensures var after := Upserted(events, evs);
            (forall id :: id in after ==> id in remote && after[id] == remote[id])
            && (forall id :: id in after <==> id in events || exists e :: e in evs && e.id == id)
  {
    if evs != [] {
      var front, last := evs[..|evs| - 1], evs[|evs| - 1];
      assert evs == front + [last];
      UpsertedHolds(events, front, remote);
      assert forall e :: e in evs <==> e in front || e == last;
    }
  }

  lemma {:induction false} KeptOnly(evs: seq<Event>, kept: set<string>)
    ensures forall e :: e in Kept(evs, kept) ==> e in evs
  {
    if evs != [] {
      assert evs == evs[..|evs| - 1] + [evs[|evs| - 1]];
      KeptOnly(evs[..|evs| - 1], kept);
    }
  }

  /** Whatever fails, a sync of one repository keeps the invariant and never moves a cursor
      back. */
  lemma SyncKeepsInv(w: World, r: RepoRef, calls: Calls)
    requires Inv(w) && Answers(w.remote, w.stored, r, calls)
    ensures Inv(After(w, SyncOne(r, calls)))
    ensures forall q :: CursorOf(After(w, SyncOne(r, calls)).stored.cursors, q) >= CursorOf(w.stored.cursors, q)
  {
    var t := After(w, SyncOne(r, calls));
    if !calls.getFails && !calls.listFails && calls.listed != [] {
      forall q
        ensures CursorOf(t.stored.cursors, q) >= CursorOf(w.stored.cursors, q)
      {
      }
      SyncStoresRemote(w, r, calls);
      forall id | id in t.remote && Behind(t.remote[id], t.stored.cursors)
        ensures IsStored(t, id)
      {
        BehindCursor(w, r, calls, id);
      }
      assert forall q :: CursorOf(w.stored.cursors, q) >= 0;
      hide Lists, IsStored, Upserted, Behind, Kept;
    }
  }

  lemma SyncStoresRemote(w: World, r: RepoRef, calls: Calls)
    requires Inv(w) && Answers(w.remote, w.stored, r, calls) && !calls.getFails && !calls.listFails
    ensures var t := After(w, SyncOne(r, calls)); forall id :: id in t.stored.events ==> IsStored(t, id)
  {
    assert forall id :: id in w.stored.events ==> IsStored(w, id);
    KeptOnly(calls.listed, calls.kept);
    UpsertedHolds(w.stored.events, Kept(calls.listed, calls.kept), w.remote);
    UpsertedHolds(w.stored.events, calls.listed, w.remote);
  }

  lemma BehindCursor(w: World, r: RepoRef, calls: Calls, id: string)
    requires Inv(w) && Answers(w.remote, w.stored, r, calls)
    requires !calls.getFails && !calls.listFails && calls.listed != []
    requires var t := After(w, SyncOne(r, calls)); id in t.remote && Behind(t.remote[id], t.stored.cursors)
    ensures IsStored(After(w, SyncOne(r, calls)), id)
  {
    var e := w.remote[id];
    assert forall id :: id in w.stored.events ==> IsStored(w, id);
    KeptOnly(calls.listed, calls.kept);
    UpsertedHolds(w.stored.events, Kept(calls.listed, calls.kept), w.remote);
    UpsertedHolds(w.stored.events, calls.listed, w.remote);
    if Behind(e, w.stored.cursors) {
      assert IsStored(w, id);
    } else {
      assert e in calls.listed;
    }
  }

  lemma AppearKeepsInv(w: World, e: Event)
    requires Inv(w) && CanStep(w, Appear(e))
    ensures Inv(After(w, Appear(e)))
  {
    var t := After(w, Appear(e));
    forall id | id in t.stored.events
      ensures IsStored(t, id)
    {
      assert IsStored(w, id);
    }
    forall id | id in t.remote && Behind(t.remote[id], t.stored.cursors)
      ensures IsStored(t, id)
    {
      assert CursorOf(t.stored.cursors, RepoOf(e)) >= 0;
      if id != e.id { assert IsStored(w, id); }
    }
  }

  ghost predicate WorldRun(w: World, steps: seq<Step>, t: World)
    decreases |steps|
  {
    if steps == [] then w == t else CanStep(w, steps[0]) && WorldRun(After(w, steps[0]), steps[1..], t)
  }

  /** Over any sequence of syncs and failures a cursor never goes back, and every remote event
      older than a positive cursor is stored. */
  lemma {:induction false} CursorsNeverLoseEvents(w: World, steps: seq<Step>, t: World)
    requires Inv(w) && WorldRun(w, steps, t)
    ensures Inv(t)
    ensures forall r :: CursorOf(t.stored.cursors, r) >= CursorOf(w.stored.cursors, r)
    decreases |steps|
  {
    hide Inv, CanStep;
    if steps != [] {
      match steps[0] {
        case Appear(e) => AppearKeepsInv(w, e);
        case SyncOne(r, calls) =>
          AnswersFrom(w, r, calls);
          hide Answers;
          SyncKeepsInv(w, r, calls);
      }
      CursorsNeverLoseEvents(After(w, steps[0]), steps[1..], t);
    }
  }

  lemma AnswersFrom(w: World, r: RepoRef, calls: Calls)
    requires CanStep(w, SyncOne(r, calls))
    ensures Answers(w.remote, w.stored, r, calls)
  {
  }

  lemma EmptyStoreIsSafe(remote: Events)
    requires ValidRemote(remote)
    ensures Inv(World(remote, Stored(map[], map[])))
  {
  }

  /** So from an empty store, whatever the remote has had before: a remote event older than a
      positive cursor is stored. */
  lemma NothingIsLostFromEmpty(remote: Events, steps: seq<Step>, t: World, id: string)
    requires ValidRemote(remote) && WorldRun(World(remote, Stored(map[], map[])), steps, t)
    requires id in t.remote && Behind(t.remote[id], t.stored.cursors)
    ensures IsStored(t, id)
  {
    hide WorldRun, Behind, IsStored, CursorOf;
    EmptyStoreIsSafe(remote);
    CursorsNeverLoseEvents(World(remote, Stored(map[], map[])), steps, t);
  }

  // ---------------------------------------------------------------- events that appear during a sync

  function Arrived(w: World, arrivals: Events): World {
    w.(remote := w.remote + arrivals)
  }

  /** Listing and writing are not one step. Events that appear between the two are not listed, and
      the writes lead where they would have led before those events. So they lose nothing exactly
      when no arrival is older than the cursor that the sync leaves. */
  lemma ArrivalsDuringSync(w: World, r: RepoRef, calls: Calls, arrivals: Events)
    requires Inv(w) && Answers(w.remote, w.stored, r, calls)
    requires ValidRemote(arrivals) && arrivals.Keys !! w.remote.Keys
    ensures var t := After(Arrived(w, arrivals), SyncOne(r, calls));
            t == Arrived(After(w, SyncOne(r, calls)), arrivals)
            && (Inv(t) <==> forall id :: id in arrivals ==> !Behind(arrivals[id], t.stored.cursors))
  {
    hide Inv, Answers, SyncedRepo;
    SyncKeepsInv(w, r, calls);
    ArrivalsKeepInvIffNotBehind(After(w, SyncOne(r, calls)), arrivals);
  }

  lemma ArrivalsKeepInvIffNotBehind(w: World, arrivals: Events)
    requires Inv(w) && ValidRemote(arrivals) && arrivals.Keys !! w.remote.Keys
    ensures Inv(Arrived(w, arrivals)) <==> forall id :: id in arrivals ==> !Behind(arrivals[id], w.stored.cursors)
  {
    var t := Arrived(w, arrivals);
    forall id | id in t.stored.events
      ensures IsStored(t, id)
    {
      assert IsStored(w, id);
    }
    assert forall id :: id in arrivals ==> !IsStored(t, id);
    forall id | id in w.remote && Behind(t.remote[id], t.stored.cursors)
      ensures IsStored(t, id)
    {
      assert IsStored(w, id);
    }
    hide Behind;
    if forall id :: id in arrivals ==> !Behind(arrivals[id], w.stored.cursors) {
      forall id | id in t.remote && Behind(t.remote[id], t.stored.cursors)
        ensures IsStored(t, id)
      {
        assert id !in arrivals;
      }
    } else {
      var id :| id in arrivals && Behind(arrivals[id], w.stored.cursors);
      assert t.remote[id] == arrivals[id] && !IsStored(t, id);
    }
  }

  /** Each repository's listing keeps its contract at its turn. */
  ghost predicate AnsweredInTurn(remote: Events, st: Stored, repos: seq<RepoRef>, calls: seq<Calls>)
    requires |repos| == |calls|
  {
    repos == [] ||
    var n := |repos| - 1;
    AnsweredInTurn(remote, st, repos[..n], calls[..n])
    && Answers(remote, SyncedAll(st, repos[..n], calls[..n]).0, repos[n], calls[n])
  }

  lemma {:induction false} WorldRunThen(w: World, steps: seq<Step>, t: World, s: Step)
    requires WorldRun(w, steps, t) && CanStep(t, s)
    ensures WorldRun(w, steps + [s], After(t, s))
    decreases |steps|
  {
    hide CanStep, After;
    assert WorldRun(After(t, s), [], After(t, s));
    if steps == [] {
      assert ([] + [s])[1..] == [];
    } else {
      WorldRunThen(After(w, steps[0]), steps[1..], t, s);
      assert (steps + [s])[1..] == steps[1..] + [s];
    }
  }

  /** A whole sync is a run of its repositories' syncs. */
  lemma {:induction false} WholeSyncIsARun(remote: Events, st: Stored, repos: seq<RepoRef>, calls: seq<Calls>)
      returns (steps: seq<Step>)
    requires |repos| == |calls| && AnsweredInTurn(remote, st, repos, calls)
    ensures WorldRun(World(remote, st), steps, World(remote, SyncedAll(st, repos, calls).0))
  {
    hide Answers, SyncedRepo;
    if repos == [] {
      steps := [];
    } else {
      var n := |repos| - 1;
      var before := WholeSyncIsARun(remote, st, repos[..n], calls[..n]);
      var w := World(remote, SyncedAll(st, repos[..n], calls[..n]).0);
      WorldRunThen(World(remote, st), before, w, SyncOne(repos[n], calls[n]));
      steps := before + [SyncOne(repos[n], calls[n])];
      hide WorldRun;
    }
  }

  /** So a whole sync, whatever fails in it, loses no event and moves no cursor back. */
  lemma WholeSyncKeepsInv(remote: Events, st: Stored, repos: seq<RepoRef>, calls: seq<Calls>)
    requires |repos| == |calls| && AnsweredInTurn(remote, st, repos, calls) && Inv(World(remote, st))
    ensures Inv(World(remote, SyncedAll(st, repos, calls).0))
    ensures forall r :: CursorOf(SyncedAll(st, repos, calls).0.cursors, r) >= CursorOf(st.cursors, r)
  {
    hide Inv, SyncedAll, AnsweredInTurn, WorldRun;
    var steps := WholeSyncIsARun(remote, st, repos, calls);
    CursorsNeverLoseEvents(World(remote, st), steps, World(remote, SyncedAll(st, repos, calls).0));
  }

  /** A successful sync of a repository stores all of its remote events. */
  lemma SuccessStoresEverything(w: World, r: RepoRef, calls: Calls, id: string)
    requires Inv(w) && Answers(w.remote, w.stored, r, calls) && SyncedRepo(w.stored, r, calls).1.Some?
    requires id in w.remote && RepoOf(w.remote[id]) == r
    ensures IsStored(After(w, SyncOne(r, calls)), id)
  {
    var e := w.remote[id];
    var since := CursorOf(w.stored.cursors, r);
    assert forall id :: id in w.stored.events ==> IsStored(w, id);
    if since > 0 && e.ts < since { assert IsStored(w, id); }
    if calls.listed != [] {
      UpsertedHolds(w.stored.events, calls.listed, w.remote);
    }
    assert since == 0 || e.ts >= since ==> e in calls.listed;
  }

  /** Why new events must not be older than the cursor: a remote event that is not yet stored
      is picked up by the next successful sync if and only if there is no cursor yet or the
      event is not older than it. */
  lemma PickedUpIffNotOlder(remote: Events, st: Stored, r: RepoRef, calls: Calls, id: string)
    requires ValidRemote(remote) && Answers(remote, st, r, calls) && SyncedRepo(st, r, calls).1.Some?
    requires id in remote && RepoOf(remote[id]) == r && id !in st.events
    ensures id in SyncedRepo(st, r, calls).0.events
      <==> CursorOf(st.cursors, r) == 0 || remote[id].ts >= CursorOf(st.cursors, r)
  {
    UpsertedIds(st.events, calls.listed, id);
    assert remote[id] in calls.listed <==> CursorOf(st.cursors, r) == 0 || remote[id].ts >= CursorOf(st.cursors, r);
    assert forall e :: e in calls.listed && e.id == id ==> e == remote[id];
  }

  lemma {:induction false} UpsertedIds(events: Events, evs: seq<Event>, id: string)
    ensures id in Upserted(events, evs) <==> id in events || exists e :: e in evs && e.id == id
  {
    if evs != [] {
      assert evs == evs[..|evs| - 1] + [evs[|evs| - 1]];
      UpsertedIds(events, evs[..|evs| - 1], id);
    }
  }
}

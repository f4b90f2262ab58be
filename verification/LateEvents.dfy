/** Events that appear remotely with a time before their repository's cursor. */
module LateEvents {
  import opened Types
  import opened Sync

  /** Events appear with any time; listing keeps its contract. */
  ghost predicate CanHappen(w: World, s: Step) {
    match s
    case Appear(e) => e.id !in w.remote
    case SyncOne(r, calls) => Answers(w.remote, w.stored, r, calls)
  }

  ghost predicate AnyRun(w: World, steps: seq<Step>, t: World)
    decreases |steps|
  {
    if steps == [] then w == t else CanHappen(w, steps[0]) && AnyRun(After(w, steps[0]), steps[1..], t)
  }

  /** Not stored, and older than the cursor from which its repository is listed. */
  predicate Missed(w: World, id: string) {
    id in w.remote && id !in w.stored.events && Behind(w.remote[id], w.stored.cursors)
  }

  lemma NotUpserted(w: World, r: RepoRef, calls: Calls, evs: seq<Event>, id: string)
    requires Missed(w, id) && Lists(w.remote, r, CursorOf(w.stored.cursors, r), calls.listed)
    requires forall e :: e in evs ==> e in calls.listed
    ensures id !in Upserted(w.stored.events, evs)
  {
    UpsertedIds(w.stored.events, evs, id);
  }

  lemma StepKeepsMissed(w: World, s: Step, id: string)
    requires Missed(w, id) && CanHappen(w, s)
    ensures Missed(After(w, s), id)
  {
    match s {
      case Appear(e) =>
      case SyncOne(r, calls) =>
        if !calls.getFails && !calls.listFails {
          KeptOnly(calls.listed, calls.kept);
          NotUpserted(w, r, calls, calls.listed, id);
          NotUpserted(w, r, calls, Kept(calls.listed, calls.kept), id);
          hide Lists, Upserted, Kept;
        }
    }
  }

  /** Once missed, an event is missed in every continuation, whatever appears and whatever
      fails. */
  lemma {:induction false} MissedForGood(w: World, steps: seq<Step>, t: World, id: string)
    requires Missed(w, id) && AnyRun(w, steps, t)
    ensures Missed(t, id)
    decreases |steps|
  {
    hide Missed, CanHappen, After;
    if steps != [] {
      StepKeepsMissed(w, steps[0], id);
      MissedForGood(After(w, steps[0]), steps[1..], t, id);
    }
  }

  // ---------------------------------------------------------------- exactly those are missed

  /** A listing that keeps the contract exists: here for the events with the given ids. */
  lemma {:induction false} ListingOf(remote: Events, r: RepoRef, since: int, ids: set<string>)
    returns (listed: seq<Event>)
    requires ValidRemote(remote) && ids <= remote.Keys
    ensures forall e :: e in listed <==>
      e.id in ids && remote[e.id] == e && RepoOf(e) == r && (since == 0 || e.ts >= since)
  {
    if ids == {} {
      listed := [];
    } else {
      var id :| id in ids;
      var others := ListingOf(remote, r, since, ids - {id});
      var e := remote[id];
      assert ids == (ids - {id}) + {id};
      listed := if RepoOf(e) == r && (since == 0 || e.ts >= since) then others + [e] else others;
    }
  }

  /** A sync in which nothing fails. */
  lemma GoodSync(w: World, r: RepoRef) returns (calls: Calls)
    requires ValidRemote(w.remote)
    ensures Answers(w.remote, w.stored, r, calls) && SyncedRepo(w.stored, r, calls).1.Some?
  {
    var listed := ListingOf(w.remote, r, CursorOf(w.stored.cursors, r), w.remote.Keys);
    calls := Calls(false, false, listed, false, {}, false, false);
  }

  /** An unstored remote event is never picked up, in any continuation, if and only if it is
      older than a cursor of its repository. */
  lemma NeverPickedUpIffBehind(w: World, id: string)
    requires ValidRemote(w.remote) && id in w.remote && id !in w.stored.events
    requires CursorOf(w.stored.cursors, RepoOf(w.remote[id])) >= 0
    ensures (forall steps, t :: AnyRun(w, steps, t) ==> id !in t.stored.events)
      <==> Behind(w.remote[id], w.stored.cursors)
  {
    if Behind(w.remote[id], w.stored.cursors) {
      forall steps, t | AnyRun(w, steps, t)
        ensures id !in t.stored.events
      {
        MissedForGood(w, steps, t, id);
      }
    } else {
      var r := RepoOf(w.remote[id]);
      var calls := GoodSync(w, r);
      PickedUpIffNotOlder(w.remote, w.stored, r, calls, id);
      var t := After(w, SyncOne(r, calls));
      assert AnyRun(t, [], t);
      assert [SyncOne(r, calls)][1..] == [];
      assert AnyRun(w, [SyncOne(r, calls)], t);
      assert id in t.stored.events;
      assert exists steps, u :: AnyRun(w, steps, u) && id in u.stored.events;
    }
  }

  function Commit(id: string, ts: int): Event {
    Event(id, ts, "commit", "o", "r", "", "", 0, 0, "")
  }

  lemma OneEvent(before: Events, e: Event)
    ensures Upserted(before, [e]) == before[e.id := e] && Latest(0, [e]) == Max(0, e.ts)
  {
    assert [e][..0] == [] && [e][0] == e;
    assert Upserted(before, [e][..0]) == before && Latest(0, [e][..0]) == 0;
  }

  /** Nor need it be late: an event that appears between the listing and the writes of its
      repository's first sync, when there is no cursor yet, is behind the new one. */
  lemma ArrivalDuringSyncIsMissed() returns (w: World, calls: Calls, e: Event)
    ensures Inv(w) && Answers(w.remote, w.stored, RepoOf(e), calls)
    ensures e.id !in w.remote && !Behind(e, w.stored.cursors)
    ensures Missed(After(Arrived(w, map[e.id := e]), SyncOne(RepoOf(e), calls)), e.id)
  {
    var a := Commit("a", 10);
    e := Commit("b", 5);
    calls := Calls(false, false, [a], false, {}, false, false);
    w := World(map["a" := a], Stored(map[], map[]));
    EmptyStoreIsSafe(w.remote);
    hide Upserted, Latest;
    OneEvent(map[], a);
    assert "a" != "b";
  }

  /** From nothing: an event, a sync that stores it and moves the cursor to its time, and then an
      older event of the same repository. */
  lemma LateEventIsMissed() returns (steps: seq<Step>, w: World)
    ensures AnyRun(World(map[], Stored(map[], map[])), steps, w) && Missed(w, "b")
  {
    var a, b := Commit("a", 10), Commit("b", 5);
    var calls := Calls(false, false, [a], false, {}, false, false);
    var w0 := World(map[], Stored(map[], map[]));
    var w1 := After(w0, Appear(a));
    var w2 := After(w1, SyncOne(RepoRef("o", "r"), calls));
    w := After(w2, Appear(b));
    steps := [Appear(a), SyncOne(RepoRef("o", "r"), calls), Appear(b)];
    OneEvent(map[], a);
    assert w1.stored == w0.stored && CursorOf(w1.stored.cursors, RepoRef("o", "r")) == 0;
    assert w2.stored == Stored(map["a" := a], map[RepoRef("o", "r") := 10]);
    assert "a" != "b";
    assert AnyRun(w, [], w);
    assert steps[2..][1..] == [] && AnyRun(w2, steps[2..], w);
    assert steps[1..][1..] == steps[2..] && AnyRun(w1, steps[1..], w);
  }
}

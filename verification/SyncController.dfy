/** The sync controller under any interleaving of any number of `Trigger` callers. A sync is
    not one step here: its repositories are synced one by one, between steps of the others. */
module SyncController {
  import opened Common
  import opened Sync

  /** A sync under way: the store it began on, its repositories, what the calls for those done
      so far answered, and its result so far. */
  datatype Progress = Progress(start: Stored, repos: seq<RepoRef>, calls: seq<Calls>, result: SyncResult)

  /** Where a caller of `Trigger` is. */
  datatype CallerPc = Entered | Discovering | Syncing(sync: Progress) | Recording(sync: Progress) | Releasing
    | Rejected | Returned

  /** A sync that was recorded, and the store as it was then. */
  datatype SyncRun = SyncRun(sync: Progress, end: Stored)

  datatype State = State(stored: Stored, inProgress: bool, lastResult: Option<SyncResult>,
                         callers: map<nat, CallerPc>, recorded: seq<SyncRun>)

  datatype Action =
    | Trigger(id: nat)
    | Check(id: nat)
    | Discover(id: nat, repos: Option<seq<RepoRef>>)
    | SyncNext(id: nat, calls: Calls)
    | Finish(id: nat)
    | Record(id: nat)
    | Release(id: nat)

  datatype Move = Blocked | To(state: State)

  function At(s: State, id: nat): CallerPc {
    if id in s.callers then s.callers[id] else Returned
  }

  function Advance(s: State, id: nat, pc: CallerPc): State {
    s.(callers := s.callers[id := pc])
  }

  function Counted(result: SyncResult, r: RepoRef, count: Option<nat>): SyncResult {
    if count.Some? then SyncResult(result.reposScanned + 1, result.eventsUpserted + count.value, result.errors)
    else result.(errors := result.errors + [r])
  }

  function Step(s: State, a: Action): Move {
    var pc := At(s, a.id);
    match a
    case Trigger(id) => if id in s.callers then Blocked else To(Advance(s, id, Entered))
    case Check(id) =>
      if !pc.Entered? then Blocked
      else if s.inProgress then To(Advance(s, id, Rejected))
      else To(Advance(s.(inProgress := true), id, Discovering))
    case Discover(id, repos) =>
      if !pc.Discovering? then Blocked
      else if repos.None? then To(Advance(s, id, Releasing))
      else To(Advance(s, id, Syncing(Progress(s.stored, repos.value, [], SyncResult(0, 0, [])))))
    case SyncNext(id, calls) =>
      if !pc.Syncing? || |pc.sync.calls| >= |pc.sync.repos| then Blocked
      else
        var r := pc.sync.repos[|pc.sync.calls|];
        var (after, count) := SyncedRepo(s.stored, r, calls);
        To(Advance(s.(stored := after), id,
                   Syncing(pc.sync.(calls := pc.sync.calls + [calls], result := Counted(pc.sync.result, r, count)))))
    case Finish(id) =>
      if !pc.Syncing? || |pc.sync.calls| < |pc.sync.repos| then Blocked else To(Advance(s, id, Recording(pc.sync)))
    case Record(id) =>
      if !pc.Recording? then Blocked
      else To(Advance(s.(lastResult := Some(pc.sync.result), recorded := s.recorded + [SyncRun(pc.sync, s.stored)]),
                      id, Releasing))
    case Release(id) =>
      if !pc.Releasing? then Blocked else To(Advance(s.(inProgress := false), id, Returned))
  }

  ghost predicate Runs(s: State, acts: seq<Action>, t: State)
    decreases |acts|
  {
    if acts == [] then s == t else var next := Step(s, acts[0]); next.To? && Runs(next.state, acts[1..], t)
  }

  function Initial(stored: Stored): State {
    State(stored, false, None, map[], [])
  }

  // ---------------------------------------------------------------- mutual exclusion

  predicate Holds(pc: CallerPc) {
    pc.Discovering? || pc.Syncing? || pc.Recording? || pc.Releasing?
  }

  predicate Holder(s: State, id: nat) {
    Holds(At(s, id))
  }

  /** At most one caller holds the slot, and the flag says whether one does. */
  ghost predicate Exclusive(s: State) {
    && (forall i, j :: Holder(s, i) && Holder(s, j) ==> i == j)
    && (s.inProgress <==> exists i :: Holder(s, i))
  }

  lemma OthersStay(s: State, a: Action, i: nat)
    requires Step(s, a).To? && i != a.id
    ensures At(Step(s, a).state, i) == At(s, i)
  {
  }

  lemma OwnMove(s: State, a: Action)
    requires Step(s, a).To?
    ensures var t := Step(s, a).state;
            && (Holder(t, a.id) <==> if a.Check? then !s.inProgress else Holder(s, a.id) && !a.Release?)
            && t.inProgress == (if a.Check? then true else s.inProgress && !a.Release?)
            && (a.Release? ==> Holder(s, a.id)) && (a.Check? || a.Trigger? ==> !Holder(s, a.id))
  {
  }

  lemma StepKeepsExclusive(s: State, a: Action)
    requires Exclusive(s) && Step(s, a).To?
    ensures Exclusive(Step(s, a).state)
  {
    var t := Step(s, a).state;
    OwnMove(s, a);
    forall i | i != a.id
      ensures Holder(t, i) <==> Holder(s, i)
    {
      OthersStay(s, a, i);
    }
    hide Step, Holds, At;
    if s.inProgress { var i :| Holder(s, i); assert Holder(t, i) || a.Release?; }
    assert t.inProgress && !s.inProgress ==> Holder(t, a.id);
  }

  // ---------------------------------------------------------------- atomicity

  /** The store is where the sync's own calls have brought it: nobody else has written. */
  ghost predicate OnCourse(sync: Progress, stored: Stored) {
    && |sync.calls| <= |sync.repos|
    && (stored, sync.result) == SyncedAll(sync.start, sync.repos[..|sync.calls|], sync.calls)
  }

  ghost predicate Whole(run: SyncRun) {
    && |run.sync.calls| == |run.sync.repos|
    && (run.end, run.sync.result) == SyncedAll(run.sync.start, run.sync.repos, run.sync.calls)
  }

  ghost predicate Inv(s: State) {
    && Exclusive(s)
    && (forall i {:trigger At(s, i)} :: At(s, i).Syncing? ==> OnCourse(At(s, i).sync, s.stored))
    && (forall i {:trigger At(s, i)} :: At(s, i).Recording? ==> Whole(SyncRun(At(s, i).sync, s.stored)))
    && (forall k :: 0 <= k < |s.recorded| ==> Whole(s.recorded[k]))
    && (if s.recorded == [] then s.lastResult.None? else s.lastResult == Some(s.recorded[|s.recorded| - 1].sync.result))
  }

  lemma NextOnCourse(sync: Progress, stored: Stored, calls: Calls)
    requires OnCourse(sync, stored) && |sync.calls| < |sync.repos|
    ensures var r := sync.repos[|sync.calls|];
            var synced := SyncedRepo(stored, r, calls);
            OnCourse(sync.(calls := sync.calls + [calls], result := Counted(sync.result, r, synced.1)), synced.0)
  {
    var n := |sync.calls|;
    var more := sync.calls + [calls];
    assert sync.repos[..n + 1][..n] == sync.repos[..n] && more[..n] == sync.calls;
  }

  lemma StepKeepsInv(s: State, a: Action)
    requires Inv(s) && Step(s, a).To?
    ensures Inv(Step(s, a).state)
  {
    var t := Step(s, a).state;
    StepKeepsExclusive(s, a);
    var pc := At(s, a.id);
    if a.SyncNext? { NextOnCourse(pc.sync, s.stored, a.calls); }
    if a.Finish? { assert pc.sync.repos[..|pc.sync.calls|] == pc.sync.repos; }
    forall i
      ensures At(t, i).Syncing? ==> OnCourse(At(t, i).sync, t.stored)
      ensures At(t, i).Recording? ==> Whole(SyncRun(At(t, i).sync, t.stored))
    {
      if i != a.id {
        OthersStay(s, a, i);
        assert a.SyncNext? ==> Holder(s, a.id) && !Holder(s, i);
      }
      hide Exclusive, SyncedAll, SyncedRepo;
    }
    hide Exclusive, SyncedAll, SyncedRepo;
  }

  lemma {:induction false} RunKeepsInv(s: State, acts: seq<Action>, t: State)
    requires Inv(s) && Runs(s, acts, t)
    ensures Inv(t)
    decreases |acts|
  {
    hide Inv, Step;
    if acts != [] {
      StepKeepsInv(s, acts[0]);
      RunKeepsInv(Step(s, acts[0]).state, acts[1..], t);
    }
  }

  // ---------------------------------------------------------------- the theorems

  /** One sync at a time: in every reachable state at most one caller is past the check, and
      the flag is up exactly while one is. */
  lemma OneSyncAtATime(stored: Stored, acts: seq<Action>, s: State)
    requires Runs(Initial(stored), acts, s)
    ensures forall i, j :: Holder(s, i) && Holder(s, j) ==> i == j
    ensures s.inProgress <==> exists i :: Holder(s, i)
  {
    RunKeepsInv(Initial(stored), acts, s);
  }

  /** A caller that finds a sync running is turned away and changes nothing else; one that
      does not takes the slot. */
  lemma RejectedIffBusy(stored: Stored, acts: seq<Action>, s: State, id: nat)
    requires Runs(Initial(stored), acts, s) && At(s, id) == Entered
    ensures Step(s, Check(id)) == To(if exists i :: Holder(s, i) then Advance(s, id, Rejected)
                                     else Advance(s.(inProgress := true), id, Discovering))
  {
    OneSyncAtATime(stored, acts, s);
  }

  /** However the callers interleave, every recorded sync is the undisturbed sync of its
      repositories from the store it began on, and accounts for each of them as scanned or
      failed; the last result is that of the last one recorded. */
  lemma RecordedSyncsAreWhole(stored: Stored, acts: seq<Action>, s: State, k: nat)
    requires Runs(Initial(stored), acts, s) && k < |s.recorded|
    ensures var run := s.recorded[k];
            |run.sync.calls| == |run.sync.repos|
            && (run.end, run.sync.result) == SyncedAll(run.sync.start, run.sync.repos, run.sync.calls)
            && run.sync.result.reposScanned + |run.sync.result.errors| == |run.sync.repos|
    ensures s.lastResult == Some(s.recorded[|s.recorded| - 1].sync.result)
  {
    RunKeepsInv(Initial(stored), acts, s);
    assert Whole(s.recorded[k]);
  }

  // ---------------------------------------------------------------- what a caller comes to

  lemma OneMore(s: State, a: Action, acts: seq<Action>, t: State)
    requires Step(s, a).To? && Runs(Step(s, a).state, acts, t)
    ensures Runs(s, [a] + acts, t)
  {
    hide Step;
    assert ([a] + acts)[1..] == acts;
  }

  lemma NoSteps(s: State)
    ensures Runs(s, [], s)
  {
  }

  /** The repositories that are left, one after the other. */
  lemma {:induction false} SyncsTheRest(s: State, id: nat, sync: Progress, rest: seq<Calls>)
      returns (acts: seq<Action>, t: State)
    requires At(s, id) == Syncing(sync) && OnCourse(sync, s.stored) && |sync.calls| + |rest| == |sync.repos|
    ensures Runs(s, acts, t)
    ensures var all := sync.calls + rest;
            var (stored, result) := SyncedAll(sync.start, sync.repos, all);
            t == Advance(s.(stored := stored), id, Syncing(sync.(calls := all, result := result)))
    decreases |rest|
  {
    hide OnCourse, SyncedAll, SyncedRepo, Runs, Counted, Step, At, Advance;
    if rest == [] {
      acts, t := [], s;
      NoSteps(s);
      NothingLeft(s, id, sync);
      assert sync.calls + rest == sync.calls;
    } else {
      var further, m := NextIsSynced(s, id, sync, rest[0]);
      var more;
      more, t := SyncsTheRest(m, id, further, rest[1..]);
      assert sync.calls + rest == further.calls + rest[1..];
      acts := [SyncNext(id, rest[0])] + more;
      OneMore(s, SyncNext(id, rest[0]), more, t);
    }
  }

  lemma NothingLeft(s: State, id: nat, sync: Progress)
    requires At(s, id) == Syncing(sync) && OnCourse(sync, s.stored) && |sync.calls| == |sync.repos|
    ensures var (stored, result) := SyncedAll(sync.start, sync.repos, sync.calls);
            stored == s.stored && result == sync.result && Advance(s, id, Syncing(sync)) == s
  {
    hide SyncedAll;
    assert sync.repos[..|sync.calls|] == sync.repos;
    assert s.callers[id := Syncing(sync)] == s.callers;
  }

  lemma NextIsSynced(s: State, id: nat, sync: Progress, calls: Calls) returns (further: Progress, t: State)
    requires At(s, id) == Syncing(sync) && OnCourse(sync, s.stored) && |sync.calls| < |sync.repos|
    ensures further == sync.(calls := sync.calls + [calls], result := further.result)
    ensures Step(s, SyncNext(id, calls)) == To(t) && At(t, id) == Syncing(further) && OnCourse(further, t.stored)
    ensures forall stored, pc :: Advance(t.(stored := stored), id, pc) == Advance(s.(stored := stored), id, pc)
  {
    NextOnCourse(sync, s.stored, calls);
    hide OnCourse, SyncedAll, SyncedRepo, Counted;
    t := Step(s, SyncNext(id, calls)).state;
    further := At(t, id).sync;
  }

  /** A caller that nobody disturbs and that finds its repositories syncs them all, leaves the result as
      the last one, and gives the slot back. */
  lemma AloneIsSync(s: State, id: nat, repos: seq<RepoRef>, calls: seq<Calls>) returns (acts: seq<Action>, t: State)
    requires !s.inProgress && id !in s.callers && |calls| == |repos|
    ensures Runs(s, acts, t)
    ensures var (stored, result) := SyncedAll(s.stored, repos, calls);
            t.stored == stored && t.lastResult == Some(result) && !t.inProgress && At(t, id) == Returned
            && t.recorded == s.recorded + [SyncRun(Progress(s.stored, repos, calls, result), stored)]
  {
    hide SyncedAll, OnCourse, Runs, Step, Advance, At;
    var sync := Progress(s.stored, repos, [], SyncResult(0, 0, []));
    var begun, s3 := Begins(s, id, sync);
    var middle, s4 := SyncsTheRest(s3, id, sync, calls);
    assert [] + calls == calls;
    var (stored, result) := SyncedAll(s.stored, repos, calls);
    var last;
    last, t := Ends(s3, id, stored, sync.(calls := calls, result := result));
    RunsOn(s3, middle, s4, last, t);
    RunsOn(s, begun, s3, middle + last, t);
    acts := begun + (middle + last);
  }

  lemma Begins(s: State, id: nat, sync: Progress) returns (acts: seq<Action>, t: State)
    requires !s.inProgress && id !in s.callers
    requires sync == Progress(s.stored, sync.repos, [], SyncResult(0, 0, []))
    ensures Runs(s, acts, t) && At(t, id) == Syncing(sync) && OnCourse(sync, t.stored)
    ensures t.stored == s.stored && t.recorded == s.recorded
  {
    var s1 := Step(s, Trigger(id)).state;
    var s2 := Step(s1, Check(id)).state;
    t := Step(s2, Discover(id, Some(sync.repos))).state;
    NoSteps(t);
    hide Runs;
    OneMore(s2, Discover(id, Some(sync.repos)), [], t);
    OneMore(s1, Check(id), [Discover(id, Some(sync.repos))] + [], t);
    acts := [Trigger(id)] + ([Check(id)] + ([Discover(id, Some(sync.repos))] + []));
    OneMore(s, Trigger(id), [Check(id)] + ([Discover(id, Some(sync.repos))] + []), t);
  }

  lemma Ends(s3: State, id: nat, stored: Stored, sync: Progress) returns (acts: seq<Action>, t: State)
    requires |sync.calls| == |sync.repos|
    ensures Runs(Advance(s3.(stored := stored), id, Syncing(sync)), acts, t)
    ensures t.stored == stored && t.lastResult == Some(sync.result) && !t.inProgress && At(t, id) == Returned
    ensures t.recorded == s3.recorded + [SyncRun(sync, stored)]
  {
    var s := Advance(s3.(stored := stored), id, Syncing(sync));
    var s1 := Step(s, Finish(id)).state;
    var s2 := Step(s1, Record(id)).state;
    t := Step(s2, Release(id)).state;
    NoSteps(t);
    hide Runs;
    OneMore(s2, Release(id), [], t);
    OneMore(s1, Record(id), [Release(id)] + [], t);
    acts := [Finish(id)] + ([Record(id)] + ([Release(id)] + []));
    OneMore(s, Finish(id), [Record(id)] + ([Release(id)] + []), t);
  }

  lemma {:induction false} RunsOn(s: State, acts: seq<Action>, t: State, more: seq<Action>, u: State)
    requires Runs(s, acts, t) && Runs(t, more, u)
    ensures Runs(s, acts + more, u)
    decreases |acts|
  {
    hide Step;
    if acts == [] {
      assert [] + more == more;
    } else {
      RunsOn(Step(s, acts[0]).state, acts[1..], t, more, u);
      assert (acts + more)[1..] == acts[1..] + more;
    }
  }
}

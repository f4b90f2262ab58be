/** What the service manager's protocol guarantees over whole runs. */
module ManagerTheorems {
  import opened Common
  import opened DependencyOrder
  import opened ManagerProtocol
  import opened ManagerInvariant
  import opened StopCallers

  // ---------------------------------------------------------------- configurations come from resolveOrder

  /** `c` is what `Run` works on for these services. */
  ghost predicate Serves(c: Config, services: Services) {
    && ValidConfig(c)
    && c.traits.Keys == services.Keys
    && (c.cyclic <==> Cyclic(services))
    && (!c.cyclic ==> Layered(services, c.groups))
  }

  ghost function SlotOf(services: Services, groups: seq<seq<Name>>, n: Name): (at: Slot)
    requires Layered(services, groups) && n in services
    ensures at.group < |groups| && at.index < |groups[at.group]| && groups[at.group][at.index] == n
    ensures Depth(services, n, at.group)
  {
    assert Placed(groups, n);
    var k :| 0 <= k < |groups| && n in groups[k];
    var i :| 0 <= i < |groups[k]| && groups[k][i] == n;
    Slot(k, i)
  }

  /** Whatever `resolveOrder` answers gives a configuration. */
  lemma OrderGivesConfig(services: Services, traits: map<Name, Traits>, r: OrderResult) returns (c: Config)
    requires traits.Keys == services.Keys
    requires r.CyclicDependency? <==> Cyclic(services)
    requires r.Ordered? ==> Layered(services, r.groups)
    ensures Serves(c, services) && c.traits == traits && (r.Ordered? ==> c.groups == r.groups)
  {
    hide Cyclic, Depth, NoDuplicates;
    if r.CyclicDependency? {
      c := Config(traits, true, [], map[]);
    } else {
      var groups := r.groups;
      c := Config(traits, false, groups, map n | n in services :: SlotOf(services, groups, n));
      forall k, i | 0 <= k < |groups| && 0 <= i < |groups[k]|
        ensures groups[k][i] in services && SlotOf(services, groups, groups[k][i]) == Slot(k, i)
      {
        SlotIsUnique(services, groups, k, i);
      }
    }
  }

  lemma SlotIsUnique(services: Services, groups: seq<seq<Name>>, k: nat, i: nat)
    requires Layered(services, groups) && k < |groups| && i < |groups[k]|
    ensures groups[k][i] in services && SlotOf(services, groups, groups[k][i]) == Slot(k, i)
  {
  }

  lemma DependencyInEarlierSlot(c: Config, services: Services, n: Name, d: Name)
    requires Serves(c, services) && !c.cyclic && DependsOn(services, n, d)
    ensures n in c.slots && d in c.slots && c.slots[d].group < c.slots[n].group
  {
    var k, j := c.slots[n].group, c.slots[d].group;
    assert c.groups[k][c.slots[n].index] in c.groups[k];
    assert c.groups[j][c.slots[d].index] in c.groups[j];
    DependencyIsShallower(services, n, d, j, k);
  }

  // ---------------------------------------------------------------- the error channel

  /** No goroutine sends on the closed channel, and by the time it is closed none is left. */
  lemma NoSendAfterClose(c: Config, s: State)
    requires ValidConfig(c) && Reachable(c, s)
    ensures !s.errCh.panicked
    ensures s.errCh.closed ==> forall n :: n in s.pool.svc ==> s.pool.svc[n] == Idle || s.pool.svc[n] == Gone
  {
    ReachableInv(c, s);
    if s.errCh.closed {
      forall n | n in s.pool.svc
        ensures s.pool.svc[n] == Idle || s.pool.svc[n] == Gone
      {
        if s.pool.svc[n] != Idle && s.pool.svc[n] != Gone { LiveIsCounted(s.pool, n); }
      }
    }
  }

  /** A failing service never waits on its send, whatever the buffer holds. */
  lemma SendNeverBlocks(c: Config, s: State, n: Name, outcome: Outcome, contextFirst: bool)
    requires ValidConfig(c) && Reachable(c, s) && n in s.pool.svc && s.pool.svc[n].Send?
    ensures var next := ServiceStep(c, s, n, outcome, contextFirst);
            next.To? && n in next.state.pool.svc && next.state.pool.svc[n] == Exiting && !next.state.errCh.panicked
            && next.state.errCh.buffer == if s.errCh.buffer.Some? then s.errCh.buffer
              else Some(Failure(n, s.pool.svc[n].error))
  {
    hide Reachable;
    NoSendAfterClose(c, s);
    hide ValidConfig;
  }

  /** `Run` fails with the first failure that reached the channel; that service may not fail
      and has used up every retry. Until `Run` takes it, it stays in the buffer. */
  lemma FirstFailureWins(c: Config, s: State)
    requires ValidConfig(c) && Reachable(c, s)
    ensures s.result.ServiceFailed? ==> s.errCh.reported != [] && s.result.failure == s.errCh.reported[0]
    ensures s.errCh.reported != [] && !s.result.ServiceFailed? ==> s.errCh.buffer == Some(s.errCh.reported[0])
    ensures forall f :: f in s.errCh.reported ==>
      f.service in c.traits && f.service in s.pool.failures && !c.traits[f.service].allowedFailure
      && s.pool.failures[f.service] == c.traits[f.service].maxRetries + 1
    ensures forall n :: n in c.traits ==> n in s.pool.failures && s.pool.failures[n] <= c.traits[n].maxRetries + 1
  {
    ReachableInv(c, s);
    hide Reachable, ValidConfig, InvRun, InvStopping, InvReported, InvAttempts;
    ReportedAreSpent(c, s.pool, s.errCh.reported);
    AttemptsAreBounded(c, s.pool);
  }

  lemma ReportedAreSpent(c: Config, p: Pool, reported: seq<Failure>)
    requires InvReported(c, p, reported)
    ensures forall f :: f in reported ==>
      f.service in c.traits && f.service in p.failures && !c.traits[f.service].allowedFailure
      && p.failures[f.service] == c.traits[f.service].maxRetries + 1
  {
  }

  lemma AttemptsAreBounded(c: Config, p: Pool)
    requires InvAttempts(c, p)
    ensures forall n :: n in c.traits ==> n in p.failures && p.failures[n] <= c.traits[n].maxRetries + 1
  {
  }

  // ---------------------------------------------------------------- starting

  lemma EarlierGroupIsReady(c: Config, s: State, n: Name, d: Name)
    requires Inv(c, s) && n in c.traits && d in c.traits && n in c.slots && d in c.slots
    requires c.slots[d].group < c.slots[n].group && s.pool.svc[n] != Idle
    ensures s.pool.svc[d] != Idle && s.pool.svc[d] != Spawned
    ensures c.traits[d].readyNotifier && !s.cancelled ==> d in s.ready
  {
    hide InvMain, InvErrors, InvStopping;
    assert Before(c, n, LaunchedTo(c, s.main, s.result));
    assert Before(c, d, DrainedTo(c, s.main, s.result));
    assert Before(c, d, ReadyTo(c, s.main, s.result));
  }

  /** In an uncancelled run a service is launched only after every dependency's goroutine is
      running and every dependency that signals readiness has signalled. */
  lemma DependenciesReadyBeforeLaunch(c: Config, services: Services, s: State, n: Name, d: Name)
    requires Serves(c, services) && !c.cyclic && Reachable(c, s) && DependsOn(services, n, d)
    requires n in s.pool.svc && s.pool.svc[n] != Idle
    ensures d in s.pool.svc && s.pool.svc[d] != Idle && s.pool.svc[d] != Spawned
    ensures d in c.traits && (c.traits[d].readyNotifier && !s.cancelled ==> d in s.ready)
  {
    DependencyInEarlierSlot(c, services, n, d);
    hide Reachable;
    ReachableInv(c, s);
    hide ValidConfig, Inv, Layered, Cyclic;
    EarlierGroupIsReady(c, s, n, d);
  }

  // ---------------------------------------------------------------- stopping

  lemma NothingCalled(c: Config, st: Stopping)
    requires InvStops(c, st.once, st.seen, st.stops) && InvCalls(st.stops, st.calls) && st.seen == []
    ensures st.calls == []
  {
    forall n
      ensures n !in st.calls
    {
      if n in st.stops { assert st.stops[n].pc == NotAsked; }
    }
    if st.calls != [] { SomeMember(st.calls); }
  }

  /** The once-body finds no start group or all of them. It asks every service exactly when
      it finds them, calls no `Stop` twice, and has waited for each one it asked. */
  lemma StopIsAllOrNothing(c: Config, s: State)
    requires ValidConfig(c) && Reachable(c, s)
    ensures s.stopping.seen == [] || s.stopping.seen == c.groups
    ensures NoDuplicates(s.stopping.calls)
    ensures s.stopping.seen == [] ==> s.stopping.calls == []
    ensures s.stopping.once.Over? && s.stopping.seen != [] ==>
      forall n :: n in s.stopping.stops ==> s.stopping.stops[n].pc != NotAsked && s.stopping.stops[n].joined
  {
    ReachableInv(c, s);
    if s.stopping.seen == [] { NothingCalled(c, s.stopping); }
    if s.stopping.once.Over? && s.stopping.seen != [] {
      forall n | n in s.stopping.stops
        ensures s.stopping.stops[n].pc != NotAsked && s.stopping.stops[n].joined
      {
        assert n in c.slots;
      }
    }
  }

  lemma LaterGroupIsJoined(c: Config, s: State, n: Name, d: Name)
    requires Inv(c, s) && n in c.traits && d in c.traits && n in c.slots && d in c.slots
    requires c.slots[d].group < c.slots[n].group && d in s.stopping.calls
    ensures s.stopping.stops[n].pc != NotAsked && s.stopping.stops[n].joined
  {
    hide InvRun, InvErrors, InvLock, InvGroups, InvCallers;
    assert s.stopping.stops[d].pc != NotAsked;
  }

  /** A dependency's `Stop` is called only after every dependent's has returned or timed out. */
  lemma DependentsStopFirst(c: Config, services: Services, s: State, n: Name, d: Name)
    requires Serves(c, services) && !c.cyclic && Reachable(c, s) && DependsOn(services, n, d)
    requires d in s.stopping.calls
    ensures n in s.stopping.stops && s.stopping.stops[n].pc != NotAsked && s.stopping.stops[n].joined
  {
    DependencyInEarlierSlot(c, services, n, d);
    hide Reachable;
    ReachableInv(c, s);
    hide ValidConfig, Inv, Layered, Cyclic;
    LaterGroupIsJoined(c, s, n, d);
  }

  /** When `Run` has returned, no goroutine of a service is left, the once-body is over and
      the channel is closed. Short of an empty or cyclic set of services everything was
      launched. */
  lemma RunLeavesNothingBehind(c: Config, s: State)
    requires ValidConfig(c) && Reachable(c, s) && s.main.Finished?
    ensures s.stopping.once.Over? && s.errCh.closed && s.cancelled && !s.writer && !s.reader
    ensures s.result.NoEnabledServices? ==> |c.traits| == 0
    ensures s.result.OrderFailed? ==> c.cyclic
    ensures forall n :: n in s.pool.svc ==> s.pool.svc[n] == if Early(s.result) then Idle else Gone
  {
    hide Reachable;
    ReachableInv(c, s);
    NoSendAfterClose(c, s);
    forall n | n in s.pool.svc
      ensures s.pool.svc[n] == if Early(s.result) then Idle else Gone
    {
      if !Early(s.result) { assert n in c.slots; }
    }
  }

  lemma MainLeavesOnce(c: Config, s: State, p: bool)
    requires MainStep(c, s, p).To?
    ensures var t := MainStep(c, s, p).state; t.stopping.once == s.stopping.once && t.stopping.seen == s.stopping.seen
  {
    if InStart(s.main) { StartLeavesOnce(c, s, p); } else { RunLeavesOrMoves(c, s, p); }
    hide StartStep, RunStep;
  }

  lemma StartLeavesOnce(c: Config, s: State, p: bool)
    requires InStart(s.main) && StartStep(c, s, p).To?
    ensures StartStep(c, s, p).state.stopping == s.stopping
  {
  }

  /** The once-body has looked for the recorded groups. */
  predicate HasLooked(once: Once) {
    once.Over? || (once.Claimed? && !once.body.LockGroups?)
  }

  lemma BodyLooksOnce(s: State)
    requires BodyStep(s).To? && HasLooked(s.stopping.once)
    ensures HasLooked(BodyStep(s).state.stopping.once) && BodyStep(s).state.stopping.seen == s.stopping.seen
  {
    hide StillStopping;
  }

  lemma LookedStep(c: Config, s: State, a: Action)
    requires SameKeys(c, s) && Step(c, s, a).To? && HasLooked(s.stopping.once)
    ensures var t := Step(c, s, a).state; HasLooked(t.stopping.once) && t.stopping.seen == s.stopping.seen
  {
    match a {
      case Main(p) => MainLeavesOnce(c, s, p); hide MainStep;
      case Body => BodyLooksOnce(s); hide BodyStep, HasLooked;
      case Caller(id) => CallerMoves(s, id); hide CallerStep;
      case Service(n, outcome, contextFirst) => ServiceLeavesStopping(c, s, n, outcome, contextFirst); hide ServiceStep;
      case _ => hide HasLooked, MainStep, ServiceStep, CallerStep, BodyStep;
    }
  }

  lemma ServiceLeavesStopping(c: Config, s: State, n: Name, outcome: Outcome, contextFirst: bool)
    requires SameKeys(c, s) && ServiceStep(c, s, n, outcome, contextFirst).To?
    ensures ServiceStep(c, s, n, outcome, contextFirst).state.stopping == s.stopping
  {
    hide NextPc, Report;
  }

  /** What the once-body has found stays, whatever else happens. */
  lemma {:induction false} FindingStays(c: Config, s: State, acts: seq<Action>, t: State)
    requires Runs(c, s, acts, t) && HasLooked(s.stopping.once)
    ensures t.stopping.seen == s.stopping.seen
    decreases |acts|
  {
    hide Step, HasLooked;
    if acts != [] {
      LookedStep(c, s, acts[0]);
      FindingStays(c, Step(c, s, acts[0]).state, acts[1..], t);
    }
  }

  /** `Run` is behind its start lock: it has launched and recorded every group. */
  predicate PastStart(main: MainPc) {
    main.Select? || AfterSelect(main)
  }

  lemma LooksAtStarted(c: Config, s: State)
    requires ValidConfig(c) && Inv(c, s) && |c.traits| > 0 && !c.cyclic
    requires s.stopping.once.Claimed? && s.stopping.once.body.LockGroups? && BodyStep(s).To?
    ensures var t := BodyStep(s).state; HasLooked(t.stopping.once) && (t.stopping.seen != [] <==> PastStart(s.main))
  {
    hide ValidConfig, InvLaunched, InvDrained, InvReady, InvWaitGroup, InvErrors, InvCallers, InvStops, InvCalls,
         InvSeen, BodyStep;
    SomeGroup(c);
    FreeLockShows(c, s);
    LockStepLooks(s);
    hide InvMain, InvLock, InvGroups;
  }

  lemma LockStepLooks(s: State)
    requires s.stopping.once.Claimed? && s.stopping.once.body.LockGroups? && BodyStep(s).To?
    ensures var t := BodyStep(s).state; !s.writer && HasLooked(t.stopping.once) && t.stopping.seen == s.startGroups
  {
  }

  /** With some service to start and no cycle, a start lock that is free shows the groups exactly when
      `Run` is behind it. */
  lemma FreeLockShows(c: Config, s: State)
    requires InvMain(c, s.main, s.result, s.cancelSet) && InvLock(s.main, s.writer, s.reader, s.stopping.once)
    requires InvGroups(c, s.main, s.result, s.startGroups) && |c.traits| > 0 && !c.cyclic && |c.groups| > 0
    ensures !s.writer ==> (s.startGroups != [] <==> PastStart(s.main))
  {
  }

  ghost predicate AllAsked(s: State) {
    forall n :: n in s.stopping.stops ==> s.stopping.stops[n].pc != NotAsked && s.stopping.stops[n].joined
  }

  /** Which callers of `Stop` work. The once-body asks all services to stop if, when it takes the
      start lock, `Run` is behind that lock, and then it has waited for all of them by the time
      `Run` returns. If `Run` has not got there, no service is ever asked. */
  lemma StopWorksIffPastStart(c: Config, s: State, acts: seq<Action>, t: State)
    requires ValidConfig(c) && Reachable(c, s) && |c.traits| > 0 && !c.cyclic
    requires s.stopping.once.Claimed? && s.stopping.once.body.LockGroups? && BodyStep(s).To?
    requires SameKeys(c, s) && Runs(c, BodyStep(s).state, acts, t) && t.main.Finished?
    ensures AllAsked(t) <==> PastStart(s.main)
    ensures !PastStart(s.main) ==> t.stopping.calls == []
  {
    hide Runs, Reachable, BodyStep;
    ReachableInv(c, s);
    LooksAtStarted(c, s);
    BodyKeepsInv(c, s);
    FindingStays(c, BodyStep(s).state, acts, t);
    RunKeepsInvariant(c, BodyStep(s).state, acts, t);
    hide PastStart, HasLooked;
    FinishedIsOver(c, t);
    AskedIffFound(c, t);
  }

  lemma FoundIsAsked(c: Config, st: Stopping)
    requires ValidConfig(c) && !c.cyclic && st.stops.Keys == c.traits.Keys
    requires InvStops(c, st.once, st.seen, st.stops) && st.once.Over? && st.seen != []
    ensures forall n :: n in st.stops ==> st.stops[n].pc != NotAsked && st.stops[n].joined
  {
    forall n | n in st.stops
      ensures st.stops[n].pc != NotAsked && st.stops[n].joined
    {
      assert n in c.slots;
    }
  }

  lemma NothingFoundIsNotAsked(c: Config, st: Stopping) returns (n: Name)
    requires |c.traits| > 0 && st.stops.Keys == c.traits.Keys
    requires InvStops(c, st.once, st.seen, st.stops) && st.seen == []
    ensures n in st.stops && st.stops[n].pc == NotAsked
  {
    assert c.traits.Keys != {};
    n :| n in c.traits.Keys;
    assert n in st.stops;
  }

  lemma AskedIffFound(c: Config, t: State)
    requires ValidConfig(c) && Inv(c, t) && t.stopping.once.Over? && |c.traits| > 0 && !c.cyclic
    ensures AllAsked(t) <==> t.stopping.seen != []
    ensures t.stopping.seen == [] ==> t.stopping.calls == []
  {
    hide ValidConfig, InvRun, InvErrors, InvLock, InvGroups, InvCallers, InvSeen, InvStops, InvCalls;
    if t.stopping.seen == [] {
      NothingCalled(c, t.stopping);
      var n := NothingFoundIsNotAsked(c, t.stopping);
    } else {
      FoundIsAsked(c, t.stopping);
    }
  }

  lemma FinishedIsOver(c: Config, t: State)
    requires Inv(c, t) && t.main.Finished?
    ensures t.stopping.once.Over?
  {
    hide InvRun, InvErrors, InvLock, InvGroups, InvSeen, InvStops, InvCalls;
  }

  /** A caller of `Stop` that is through before `Run` begins uses the once cell up: nothing
      that `Run` goes on to start is ever asked to stop. */
  lemma EarlyStopIsSpent(c: Config, s: State, acts: seq<Action>, t: State)
    requires ValidConfig(c) && Reachable(c, s) && s.stopping.once.Over? && s.main.SetCancel?
    requires Runs(c, s, acts, t)
    ensures t.stopping.calls == []
  {
    hide Reachable, Runs;
    ReachableInv(c, s);
    FindingStays(c, s, acts, t);
    RunKeepsInvariant(c, s, acts, t);
    hide InvRun, InvErrors, ValidConfig;
    NothingCalled(c, t.stopping);
  }

  lemma OneMore(c: Config, s: State, a: Action, acts: seq<Action>, t: State)
    requires SameKeys(c, s) && Step(c, s, a).To? && Runs(c, Step(c, s, a).state, acts, t)
    ensures Runs(c, s, [a] + acts, t)
  {
    hide Step;
    assert ([a] + acts)[1..] == acts;
  }

  /** The three steps of a caller up to the once-body, before `Run` has done anything. */
  lemma ClaimOnce(c: Config) returns (s: State)
    ensures SameKeys(c, Init(c)) && SameKeys(c, s) && s.main.SetCancel? && !s.writer && s.startGroups == []
      && !s.cancelled
    ensures s.stopping.once == Claimed(External(0), LockGroups)
    ensures forall acts, t :: Runs(c, s, acts, t) ==>
      Runs(c, Init(c), [CallStop(0)] + ([Caller(External(0))] + ([Caller(External(0))] + acts)), t)
  {
    hide Runs;
    var id := External(0);
    var s0 := Init(c);
    var s1 := Step(c, s0, CallStop(0)).state;
    var s2 := CallerStep(s1, id).state;
    s := CallerStep(s2, id).state;
    forall acts, t | Runs(c, s, acts, t)
      ensures Runs(c, s0, [CallStop(0)] + ([Caller(id)] + ([Caller(id)] + acts)), t)
    {
      OneMore(c, s2, Caller(id), acts, t);
      OneMore(c, s1, Caller(id), [Caller(id)] + acts, t);
      OneMore(c, s0, CallStop(0), [Caller(id)] + ([Caller(id)] + acts), t);
    }
  }

  /** The once-body finds nothing to stop and is over after three steps. */
  lemma BodyFindsNothing(c: Config, s: State) returns (t: State)
    requires SameKeys(c, s) && !s.writer && s.startGroups == [] && s.stopping.once == Claimed(External(0), LockGroups)
    ensures SameKeys(c, t) && t.main == s.main && t.stopping.once.Over? && t.stopping.seen == []
      && t.cancelled == s.cancelled
    ensures Runs(c, s, [Body] + ([Body] + [Body]), t)
  {
    var s1 := BodyStep(s).state;
    var s2 := BodyStep(s1).state;
    t := BodyStep(s2).state;
    assert Runs(c, t, [], t);
    assert [Body] + [] == [Body];
    hide Runs;
    OneMore(c, s2, Body, [], t);
    OneMore(c, s1, Body, [Body], t);
    OneMore(c, s, Body, [Body] + [Body], t);
  }

  /** Such a state is reached by one caller that is through before `Run` has set its cancel
      function; and with no function to call it has cancelled nothing. */
  lemma EarlyStopReachesIt(c: Config) returns (s: State)
    ensures Reachable(c, s) && s.stopping.once.Over? && s.stopping.seen == [] && s.main.SetCancel? && !s.cancelled
  {
    var s0 := ClaimOnce(c);
    s := BodyFindsNothing(c, s0);
  }
}

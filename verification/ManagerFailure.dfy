/** When a failure that a service has reported ends `Run` without help from outside. */
module ManagerFailure {
  import opened Common
  import opened DependencyOrder
  import opened ManagerProtocol
  import opened ManagerInvariant
  import opened ManagerTheorems
  import opened ManagerShutdown
  import opened StopCallers

  /** A caller of `Stop` is about to cancel the run context. */
  ghost predicate AboutToCancel(s: State) {
    exists id :: id in s.stopping.callers && s.stopping.callers[id] == Entered
  }

  /** Every service that signals readiness has signalled. */
  ghost predicate AllSignalled(c: Config, s: State) {
    forall n {:trigger c.traits[n]} :: n in c.traits && c.traits[n].readyNotifier ==> n in s.ready
  }

  /** Only the environment can take a step. */
  ghost predicate AtEnd(c: Config, s: State) {
    SameKeys(c, s) && !CanMove(c, s)
  }

  // ---------------------------------------------------------------- it ends

  /** Nothing takes back a signal, a report or the cancellation. */
  ghost predicate Grown(s: State, t: State) {
    s.ready <= t.ready && s.errCh.reported <= t.errCh.reported && (s.cancelled ==> t.cancelled)
    && (s.cancelSet ==> t.cancelSet)
  }

  lemma MainGrows(c: Config, s: State, p: bool)
    requires MainStep(c, s, p).To?
    ensures Grown(s, MainStep(c, s, p).state)
  {
    hide StartStep, RunStep;
    if InStart(s.main) {
      StartLeavesRest(c, s, p);
    } else {
      RunFrame(c, s, p);
      RunKeepsCancelSet(c, s, p);
    }
  }

  lemma RunKeepsCancelSet(c: Config, s: State, p: bool)
    requires !InStart(s.main) && RunStep(c, s, p).To?
    ensures s.cancelSet ==> RunStep(c, s, p).state.cancelSet
  {
  }

  lemma StartLeavesRest(c: Config, s: State, p: bool)
    requires InStart(s.main) && StartStep(c, s, p).To?
    ensures var t := StartStep(c, s, p).state;
            t == s.(main := t.main, pool := t.pool, writer := t.writer, startGroups := t.startGroups)
  {
    hide Spawn, StillSpawned;
  }

  lemma ServiceGrows(c: Config, s: State, n: Name, outcome: Outcome, contextFirst: bool)
    requires SameKeys(c, s) && ServiceStep(c, s, n, outcome, contextFirst).To?
    ensures var t := ServiceStep(c, s, n, outcome, contextFirst).state;
            t == s.(pool := t.pool, errCh := t.errCh) && s.errCh.reported <= t.errCh.reported
  {
    hide NextPc, AfterMove;
  }

  lemma StepGrows(c: Config, s: State, a: Action)
    requires SameKeys(c, s) && Step(c, s, a).To?
    ensures Grown(s, Step(c, s, a).state)
  {
    match a {
      case Main(p) => MainGrows(c, s, p); hide MainStep, Grown;
      case Service(n, outcome, contextFirst) => ServiceGrows(c, s, n, outcome, contextFirst); hide ServiceStep;
      case Caller(id) => CallerMoves(s, id); hide CallerStep;
      case Body => BodyMoves(s); hide BodyStep;
      case _ =>
    }
  }

  /** A caller that has entered stays there until it cancels. */
  ghost predicate EntersAt(s: State, id: CallerId) {
    s.cancelSet && (s.cancelled || (id in s.stopping.callers && s.stopping.callers[id] == Entered))
  }

  lemma MainKeepsEntering(c: Config, s: State, p: bool, id: CallerId)
    requires MainStep(c, s, p).To? && EntersAt(s, id)
    ensures EntersAt(MainStep(c, s, p).state, id)
  {
    MainGrows(c, s, p);
    if InStart(s.main) { StartLeavesOnce(c, s, p); } else { RunLeavesOrMoves(c, s, p); }
    hide StartStep, RunStep;
  }

  lemma StopsLeaveCallers(st: Stopping, n: Name)
    ensures StopStep(st, n).StopTo? ==> StopStep(st, n).stopping.callers == st.callers
    ensures forall b :: JoinStep(st, n, b).StopTo? ==> JoinStep(st, n, b).stopping.callers == st.callers
  {
  }

  lemma CallerKeepsEntering(s: State, caller: CallerId, id: CallerId)
    requires CallerStep(s, caller).To? && EntersAt(s, id)
    ensures EntersAt(CallerStep(s, caller).state, id)
  {
  }

  lemma EnteringFramed(s: State, t: State, id: CallerId)
    requires EntersAt(s, id) && t.cancelSet == s.cancelSet && (s.cancelled ==> t.cancelled)
    requires id in s.stopping.callers ==>
      id in t.stopping.callers && t.stopping.callers[id] == s.stopping.callers[id]
    ensures EntersAt(t, id)
  {
  }

  lemma StepKeepsEntering(c: Config, s: State, a: Action, id: CallerId)
    requires SameKeys(c, s) && Step(c, s, a).To? && EntersAt(s, id)
    ensures EntersAt(Step(c, s, a).state, id)
  {
    hide EntersAt, SameKeys, MainStep, ServiceStep, CallerStep, BodyStep, StopStep, JoinStep;
    var t := Step(c, s, a).state;
    match a {
      case Main(p) => MainKeepsEntering(c, s, p, id);
      case Service(n, outcome, contextFirst) => ServiceGrows(c, s, n, outcome, contextFirst); EnteringFramed(s, t, id);
      case Caller(caller) => CallerKeepsEntering(s, caller, id);
      case Body => BodyMoves(s); EnteringFramed(s, t, id);
      case StopGoroutine(n) => StopsLeaveCallers(s.stopping, n); EnteringFramed(s, t, id);
      case StopJoined(n, _) => StopsLeaveCallers(s.stopping, n); EnteringFramed(s, t, id);
      case _ => EnteringFramed(s, t, id);
    }
  }

  lemma {:induction false} RunGrows(c: Config, s: State, acts: seq<Action>, t: State, id: CallerId)
    requires Runs(c, s, acts, t)
    ensures Grown(s, t) && (EntersAt(s, id) ==> EntersAt(t, id))
    decreases |acts|
  {
    hide Step, EntersAt;
    if acts != [] {
      StepGrows(c, s, acts[0]);
      if EntersAt(s, id) { StepKeepsEntering(c, s, acts[0], id); }
      RunGrows(c, Step(c, s, acts[0]).state, acts[1..], t, id);
    }
  }

  /** What lets a reported failure end `Run`. */
  ghost predicate Unhindered(c: Config, s: State) {
    s.cancelled || AboutToCancel(s) || AllSignalled(c, s)
  }

  lemma EnteredGivesMove(c: Config, s: State, id: CallerId)
    requires SameKeys(c, s) && id in s.stopping.callers && s.stopping.callers[id] == Entered
    ensures CanMove(c, s)
  {
    assert Step(c, s, Caller(id)).To?;
  }

  lemma ReportedMeansLaunched(c: Config, s: State)
    requires Inv(c, s) && s.errCh.reported != []
    ensures s.cancelSet && !Early(s.result) && !s.main.SetCancel? && !s.main.Resolve? && !s.main.LockStart?
  {
    hide InvDrained, InvReady, InvWaitGroup, InvAttempts, InvChannel, InvStopping;
    var n := s.errCh.reported[0].service;
    assert n in s.pool.svc && s.pool.svc[n] != Idle;
  }

  /** In every continuation, one that cannot go on has returned from `Run`. */
  lemma UnhinderedEnds(c: Config, s: State, acts: seq<Action>, t: State)
    requires ValidConfig(c) && Inv(c, s) && s.errCh.reported != [] && Unhindered(c, s)
    requires Runs(c, s, acts, t) && AtEnd(c, t)
    ensures t.main.Finished?
  {
    hide ValidConfig, Runs, Inv, CanMove;
    ReportedMeansLaunched(c, s);
    RunKeepsInvariant(c, s, acts, t);
    var id :| AboutToCancel(s) ==> id in s.stopping.callers && s.stopping.callers[id] == Entered;
    RunGrows(c, s, acts, t, id);
    if !t.main.Finished? {
      StuckOnlyWaiting(c, t);
      if AboutToCancel(s) { EnteredGivesMove(c, t, id); }
    }
  }

  // ---------------------------------------------------------------- it does not

  ghost predicate Unaided(acts: seq<Action>) {
    forall a :: a in acts ==> BySystem(a)
  }

  /** Nothing is cancelled or about to be, and `n` still has to signal. */
  ghost predicate Held(c: Config, s: State, n: Name) {
    && !s.cancelled && !AboutToCancel(s) && s.errCh.reported != []
    && n in c.traits && c.traits[n].readyNotifier && n !in s.ready
  }

  /** Then `Run` is still starting its groups. */
  lemma HeldIsStarting(c: Config, s: State, n: Name)
    requires ValidConfig(c) && Inv(c, s) && Held(c, s, n)
    ensures InStart(s.main)
  {
    hide ValidConfig, Inv, AboutToCancel;
    ReportedMeansLaunched(c, s);
    if !InStart(s.main) { AllSignalledByThen(c, s, n); }
  }

  /** `Run` has waited for every service that signals readiness, unless it was cancelled. */
  lemma AllSignalledByThen(c: Config, s: State, n: Name)
    requires ValidConfig(c) && Inv(c, s) && !s.cancelled && !InStart(s.main) && !Early(s.result)
    requires !s.main.SetCancel? && !s.main.Resolve? && n in c.traits && c.traits[n].readyNotifier
    ensures n in s.ready
  {
    hide InvLaunched, InvDrained, InvWaitGroup, InvErrors, InvStopping;
    assert n in c.slots;
    assert Before(c, n, ReadyTo(c, s.main, s.result));
  }

  lemma CallerKeepsHeld(c: Config, s: State, id: CallerId, n: Name)
    requires CallerStep(s, id).To? && Held(c, s, n)
    ensures Held(c, CallerStep(s, id).state, n)
  {
    CallerMoves(s, id);
    assert s.stopping.callers[id] != Entered;
    var t := CallerStep(s, id).state;
    assert t.cancelled == s.cancelled;
    forall other | other in t.stopping.callers
      ensures t.stopping.callers[other] != Entered
    {
      assert other in s.stopping.callers && s.stopping.callers[other] != Entered;
    }
  }

  lemma InvHasKeys(c: Config, s: State)
    requires Inv(c, s)
    ensures SameKeys(c, s)
  {
    hide InvRun, InvErrors, InvStopping;
  }

  lemma HeldFramed(c: Config, s: State, t: State, n: Name)
    requires Held(c, s, n) && s.errCh.reported <= t.errCh.reported && t.stopping.callers == s.stopping.callers
    requires t.cancelled == s.cancelled && t.ready == s.ready
    ensures Held(c, t, n)
  {
  }

  lemma StepKeepsHeld(c: Config, s: State, a: Action, n: Name)
    requires ValidConfig(c) && Inv(c, s) && Held(c, s, n) && BySystem(a) && Step(c, s, a).To?
    ensures Held(c, Step(c, s, a).state, n)
  {
    hide ValidConfig, Inv, Held, SameKeys, StartStep, RunStep, ServiceStep, CallerStep, BodyStep, StopStep, JoinStep;
    InvHasKeys(c, s);
    HeldIsStarting(c, s, n);
    var t := Step(c, s, a).state;
    match a {
      case Main(p) => StartLeavesRest(c, s, p); HeldFramed(c, s, t, n);
      case Service(m, outcome, contextFirst) =>
        ServiceGrows(c, s, m, outcome, contextFirst);
        HeldFramed(c, s, t, n);
      case Caller(id) => CallerKeepsHeld(c, s, id, n);
      case Body => BodyMoves(s); HeldFramed(c, s, t, n);
      case StopGoroutine(m) => StopsLeaveCallers(s.stopping, m); HeldFramed(c, s, t, n);
      case StopJoined(m, _) => StopsLeaveCallers(s.stopping, m); HeldFramed(c, s, t, n);
    }
  }

  lemma {:induction false} HeldStays(c: Config, s: State, acts: seq<Action>, t: State, n: Name)
    requires ValidConfig(c) && Inv(c, s) && Held(c, s, n) && Runs(c, s, acts, t) && Unaided(acts)
    ensures Inv(c, t) && Held(c, t, n)
    decreases |acts|
  {
    hide ValidConfig, Inv, Held, Step, BySystem;
    if acts != [] {
      assert BySystem(acts[0]);
      StepKeepsHeld(c, s, acts[0], n);
      StepKeepsInv(c, s, acts[0]);
      HeldStays(c, Step(c, s, acts[0]).state, acts[1..], t, n);
    }
  }

  /** Left to itself the system goes on until it cannot. */
  lemma {:induction false} RunOut(c: Config, s: State) returns (acts: seq<Action>, t: State)
    requires ValidConfig(c) && Inv(c, s)
    ensures Runs(c, s, acts, t) && Unaided(acts) && AtEnd(c, t)
    decreases Supply(c, s)
  {
    assert SameKeys(c, s);
    SupplyIsNatural(c, s);
    if CanMove(c, s) {
      var a :| BySystem(a) && Step(c, s, a).To?;
      hide ValidConfig, Inv, Step, Supply, SameKeys, BySystem, CanMove;
      StepKeepsInv(c, s, a);
      StepUses(c, s, a);
      var more, u := RunOut(c, Step(c, s, a).state);
      acts, t := [a] + more, u;
      OneMore(c, s, a, more, t);
    } else {
      acts, t := [], s;
    }
  }

  /** The first failure is documented to stop everything. It does, in every continuation that cannot
      go on, exactly when the run context is cancelled or about to be or every service that signals
      readiness has signalled: while `Run` waits for a signal it does not look at failures. */
  lemma FailureEndsRunIffUnhindered(c: Config, s: State)
    requires ValidConfig(c) && Reachable(c, s) && s.errCh.reported != []
    ensures (forall acts, t :: Runs(c, s, acts, t) && AtEnd(c, t) ==> t.main.Finished?) <==> Unhindered(c, s)
  {
    ReachableInv(c, s);
    hide ValidConfig, Reachable, Inv, Runs, AtEnd, AboutToCancel;
    if Unhindered(c, s) {
      forall acts, t | Runs(c, s, acts, t) && AtEnd(c, t)
        ensures t.main.Finished?
      {
        UnhinderedEnds(c, s, acts, t);
      }
    } else {
      var n :| n in c.traits && c.traits[n].readyNotifier && n !in s.ready;
      var acts, t := RunOut(c, s);
      HeldStays(c, s, acts, t, n);
      HeldIsStarting(c, t, n);
    }
  }

  lemma PastStartIsUnhindered(c: Config, s: State)
    requires ValidConfig(c) && Inv(c, s) && s.errCh.reported != [] && PastStart(s.main)
    ensures Unhindered(c, s)
  {
    if !Unhindered(c, s) {
      var n :| n in c.traits && c.traits[n].readyNotifier && n !in s.ready;
      hide ValidConfig, Inv, AboutToCancel;
      HeldIsStarting(c, s, n);
    }
  }

  /** Once `Run` is behind its start lock a reported failure ends it within a bounded number of
      steps, with nothing from outside needed. */
  lemma FailureAfterStartEndsRun(c: Config, s: State, acts: seq<Action>, t: State)
    requires ValidConfig(c) && Reachable(c, s) && s.errCh.reported != [] && PastStart(s.main) && Runs(c, s, acts, t)
    ensures Count(acts, BySystem) <= Supply(c, s) + 4 * Count(acts, IsNewCaller)
    ensures AtEnd(c, t) ==> t.main.Finished?
  {
    hide Supply, AtEnd, Inv;
    ShutdownTerminates(c, s, acts, t);
    ReachableInv(c, s);
    hide Reachable, Runs, ValidConfig;
    PastStartIsUnhindered(c, s);
    hide Unhindered;
    if AtEnd(c, t) { UnhinderedEnds(c, s, acts, t); }
  }

  // ---------------------------------------------------------------- a failure that ends nothing

  lemma {:induction false} RunsThen(c: Config, s: State, acts: seq<Action>, t: State, a: Action)
    requires Runs(c, s, acts, t) && SameKeys(c, t) && Step(c, t, a).To? && SameKeys(c, Step(c, t, a).state)
    ensures Runs(c, s, acts + [a], Step(c, t, a).state)
    decreases |acts|
  {
    hide Step, SameKeys;
    var u := Step(c, t, a).state;
    if acts == [] {
      assert Runs(c, u, [], u);
      OneMore(c, s, a, [], u);
    } else {
      RunsThen(c, Step(c, s, acts[0]).state, acts[1..], t, a);
      OneMore(c, s, acts[0], acts[1..] + [a], u);
      assert [acts[0]] + (acts[1..] + [a]) == acts + [a];
    }
  }

  lemma ReachesNext(c: Config, s: State, a: Action)
    requires ValidConfig(c) && Reachable(c, s) && Step(c, s, a).To?
    ensures Reachable(c, Step(c, s, a).state)
  {
    hide Step, ValidConfig, Runs, Init, Inv;
    ReachableInv(c, s);
    StepKeepsInv(c, s, a);
    InvHasKeys(c, Step(c, s, a).state);
    var acts :| Runs(c, Init(c), acts, s);
    RunsThen(c, Init(c), acts, s, a);
  }

  /** One service that signals readiness, may not fail and is not tried again. */
  function OneService(n: Name): Config {
    Config(map[n := Traits(false, true, 0)], false, [[n]], map[n := Slot(0, 0)])
  }

  lemma OneServiceIsValid(n: Name)
    ensures ValidConfig(OneService(n))
  {
  }

  lemma StartIsReachable(c: Config)
    ensures SameKeys(c, Init(c)) && Reachable(c, Init(c))
  {
    assert Runs(c, Init(c), [], Init(c));
  }

  /** The one service is at `pc`, and nothing else has happened since it was launched. */
  ghost predicate OnItsWay(s: State, n: Name, pc: ServicePc) {
    && Reachable(OneService(n), s) && n in s.pool.svc && s.pool.svc[n] == pc && s.pool.wg > 0
    && s.errCh == ErrCh(None, false, false, []) && !s.cancelled && s.ready == {} && s.stopping.callers == map[]
  }

  /** Where a start lock that is free lets `Run` get in four steps: its first service is spawned. */
  lemma FirstLaunch(c: Config, s: State) returns (s1: State, s2: State, s3: State, t: State)
    requires ValidConfig(c) && SameKeys(c, s) && |c.traits| > 0 && !c.cyclic
    requires s.main.SetCancel? && !s.writer && !s.reader
    ensures MainStep(c, s, false) == To(s1) && MainStep(c, s1, false) == To(s2)
    ensures MainStep(c, s2, false) == To(s3) && MainStep(c, s3, false) == To(t)
    ensures SameKeys(c, s1) && SameKeys(c, s2) && SameKeys(c, s3) && SameKeys(c, t)
    ensures c.groups != [] && c.groups[0] != []
    ensures t == s.(main := Launch(0, 1), cancelSet := true, writer := true, pool := Spawn(s.pool, c.groups[0][0]))
    ensures c.groups[0][0] in t.pool.svc && t.pool.svc[c.groups[0][0]] == Spawned && t.pool.wg > 0
  {
    SomeGroup(c);
    assert c.groups[0] != [] && c.groups[0][0] in c.slots;
    assert c.groups[0][0] in c.traits;
    hide ValidConfig, Spawn, StillSpawned;
    s1 := s.(main := Resolve, cancelSet := true);
    s2 := s1.(main := LockStart);
    s3 := s2.(main := Launch(0, 0), writer := true);
    t := s3.(main := Launch(0, 1), pool := Spawn(s.pool, c.groups[0][0]));
    hide RunStep, StartStep;
    ToStartLock(c, s);
    FromStartLock(c, s2, c.groups[0][0]);
    SpawnedOne(c, s.pool, c.groups[0][0]);
  }

  lemma ToStartLock(c: Config, s: State)
    requires s.main.SetCancel? && |c.traits| > 0 && !c.cyclic
    ensures RunStep(c, s, false) == To(s.(main := Resolve, cancelSet := true))
    ensures RunStep(c, s.(main := Resolve, cancelSet := true), false)
         == To(s.(main := Resolve, cancelSet := true).(main := LockStart))
  {
  }

  lemma FromStartLock(c: Config, s: State, n: Name)
    requires s.main.LockStart? && !s.writer && !s.reader && c.groups != [] && c.groups[0] != [] && c.groups[0][0] == n
    ensures StartStep(c, s, false) == To(s.(main := Launch(0, 0), writer := true))
    ensures StartStep(c, s.(main := Launch(0, 0), writer := true), false)
         == To(s.(main := Launch(0, 0), writer := true).(main := Launch(0, 1), pool := Spawn(s.pool, n)))
  {
    hide Spawn, StillSpawned;
  }

  lemma SpawnedOne(c: Config, p: Pool, n: Name)
    requires n in c.traits && p.svc.Keys == c.traits.Keys
    ensures Spawn(p, n).svc.Keys == c.traits.Keys && Spawn(p, n).failures == p.failures
    ensures Spawn(p, n).svc[n] == Spawned && Spawn(p, n).wg > 0
  {
  }

  /** The four steps of `Run` up to the launch. */
  lemma Launches(n: Name) returns (s: State)
    ensures OnItsWay(s, n, Spawned)
  {
    var c := OneService(n);
    OneServiceIsValid(n);
    StartIsReachable(c);
    var s0 := Init(c);
    hide ValidConfig, Reachable, Runs, Spawn, MainStep, SameKeys;
    var s1, s2, s3, t := FirstLaunch(c, s0);
    s := t;
    ReachesNext(c, s0, Main(false));
    ReachesNext(c, s1, Main(false));
    ReachesNext(c, s2, Main(false));
    ReachesNext(c, s3, Main(false));
  }

  /** A step of a live goroutine that is not on its way out. */
  lemma ServiceReaches(c: Config, s: State, n: Name, outcome: Outcome) returns (t: State)
    requires ValidConfig(c) && Reachable(c, s) && n in s.pool.svc && n in c.traits && s.pool.wg > 0 && !s.errCh.closed
    requires var pc := s.pool.svc[n]; pc != Idle && pc != Exiting && pc != Gone
    ensures Reachable(c, t) && t == s.(pool := t.pool, errCh := t.errCh) && t.pool.wg > 0
    ensures n in t.pool.svc && t.pool.svc[n] == NextPc(c.traits[n], s.cancelled, s.pool.svc[n], outcome, false)
    ensures t.errCh == if s.pool.svc[n].Send? then Report(s.errCh, Failure(n, s.pool.svc[n].error)) else s.errCh
  {
    hide ValidConfig, Reachable, Report, NextPc;
    ReachableInv(c, s);
    InvHasKeys(c, s);
    hide Inv;
    NotGoneYet(c.traits[n], s.cancelled, s.pool.svc[n], outcome);
    t := ServiceStep(c, s, n, outcome, false).state;
    assert Step(c, s, Service(n, outcome, false)) == To(t);
    ReachesNext(c, s, Service(n, outcome, false));
  }

  lemma NotGoneYet(t: Traits, cancelled: bool, pc: ServicePc, outcome: Outcome)
    requires pc != Exiting && pc != Gone
    ensures NextPc(t, cancelled, pc, outcome, false) != Gone
  {
  }

  lemma OneGoesOn(s: State, n: Name, pc: ServicePc, outcome: Outcome) returns (t: State)
    requires OnItsWay(s, n, pc) && pc != Idle && pc != Exiting && pc != Gone && !pc.Send?
    ensures OnItsWay(t, n, NextPc(Traits(false, true, 0), false, pc, outcome, false))
  {
    var c := OneService(n);
    OneServiceIsValid(n);
    assert c.traits[n] == Traits(false, true, 0);
    hide ValidConfig, Reachable, OneService, NextPc, Report;
    t := ServiceReaches(c, s, n, outcome);
  }

  /** That service fails: the failure is reported, and the service has not signalled. */
  lemma OneServiceFails(n: Name, error: Error) returns (s: State)
    ensures var c := OneService(n);
            Reachable(c, s) && s.errCh.reported == [Failure(n, error)] && Held(c, s, n)
  {
    var c := OneService(n);
    var s4 := OneIsFailing(n, error);
    OneServiceIsValid(n);
    assert n in c.traits && c.traits[n].readyNotifier;
    hide ValidConfig, Reachable, OneService, NextPc, AboutToCancel, Report;
    s := ServiceReaches(c, s4, n, Succeeds);
    ReportedFirst(s4.errCh, Failure(n, error));
    NobodyIsAboutToCancel(s);
  }

  lemma NobodyIsAboutToCancel(s: State)
    requires s.stopping.callers == map[]
    ensures !AboutToCancel(s)
  {
  }

  lemma ReportedFirst(ch: ErrCh, f: Failure)
    requires ch.reported == []
    ensures Report(ch, f).reported == [f]
  {
  }

  lemma OneIsFailing(n: Name, error: Error) returns (s: State)
    ensures OnItsWay(s, n, Send(error))
  {
    hide OnItsWay, NextPc;
    FailsAtOnce(Traits(false, true, 0), error);
    var s0 := Launches(n);
    var s1 := OneGoesOn(s0, n, Spawned, Succeeds);
    var s2 := OneGoesOn(s1, n, Attempt(0), Fails(error));
    var s3 := OneGoesOn(s2, n, Failed(0, error), Succeeds);
    s := OneGoesOn(s3, n, Handle(error), Succeeds);
  }

  /** The way of a service that has no retries and may not fail. */
  lemma FailsAtOnce(t: Traits, error: Error)
    requires t == Traits(false, true, 0)
    ensures NextPc(t, false, Spawned, Succeeds, false) == Attempt(0)
    ensures NextPc(t, false, Attempt(0), Fails(error), false) == Failed(0, error)
    ensures NextPc(t, false, Failed(0, error), Succeeds, false) == Handle(error)
    ensures NextPc(t, false, Handle(error), Succeeds, false) == Send(error)
  {
  }

  /** Left to itself the system then comes to a state in which nothing can take a step, and `Run` has
      not returned. */
  lemma FailureDuringStartEndsNothing(n: Name, error: Error) returns (s: State, acts: seq<Action>, t: State)
    ensures var c := OneService(n);
            && ValidConfig(c) && Reachable(c, s) && s.errCh.reported == [Failure(n, error)]
            && Runs(c, s, acts, t) && AtEnd(c, t) && InStart(t.main)
  {
    var c := OneService(n);
    OneServiceIsValid(n);
    s := OneServiceFails(n, error);
    hide ValidConfig, Reachable, OneService, AtEnd, Held, Inv, Runs;
    ReachableInv(c, s);
    acts, t := RunOut(c, s);
    HeldStays(c, s, acts, t, n);
    HeldIsStarting(c, t, n);
  }
}

/** How a service's runs end, what that makes of its goroutine, and what `Run` makes of it: a failure
    that may not be is always reported, and what is reported is what `Run` returns. */
module ManagerOutcomes {
  import opened Common
  import opened DependencyOrder
  import opened ManagerProtocol
  import opened ManagerInvariant
  import opened ManagerTheorems
  import opened ManagerShutdown
  import opened ManagerFailure
  import opened StopCallers

  // ---------------------------------------------------------------- the invariant

  /** The last run of `n` failed for good: with every retry used, and reported unless it may fail. */
  ghost predicate Exhausted(t: Traits, n: Name, failures: nat, error: Error, reported: seq<Failure>) {
    failures == t.maxRetries + 1 && (t.allowedFailure || Failure(n, error) in reported)
  }

  /** What a service's place says about how its last run ended. Uncancelled, it leaves only after a
      run that succeeded or one that failed for good. */
  ghost predicate OutcomeFits(t: Traits, n: Name, pc: ServicePc, failures: nat, last: map<Name, Outcome>,
                              cancelled: bool, reported: seq<Failure>) {
    match pc
    case Idle | Spawned => n !in last
    case Attempt(k) => if k == 0 then n !in last else n in last && last[n].Fails?
    case Failed(_, e) => n in last && last[n] == Fails(e)
    case Delay(_) => n in last && last[n].Fails?
    case Handle(e) => n in last && last[n] == Fails(e)
    case Send(e) => n in last && last[n] == Fails(e)
    case Exiting | Gone =>
      cancelled
      || (n in last && if last[n].Succeeds? then failures <= t.maxRetries
                        else Exhausted(t, n, failures, last[n].error, reported))
  }

  ghost predicate InvEnds(c: Config, p: Pool, cancelled: bool, reported: seq<Failure>) {
    p.svc.Keys == p.failures.Keys == c.traits.Keys &&
    forall n {:trigger p.svc[n]} :: n in c.traits ==>
      OutcomeFits(c.traits[n], n, p.svc[n], p.failures[n], p.last, cancelled, reported)
  }

  /** What is reported is the error of the service's last run. */
  ghost predicate InvErrorsAreLast(last: map<Name, Outcome>, reported: seq<Failure>) {
    forall f :: f in reported ==> f.service in last && last[f.service] == Fails(f.error)
  }

  ghost predicate InvOutcomes(c: Config, s: State) {
    && InvEnds(c, s.pool, s.cancelled, s.errCh.reported) && InvErrorsAreLast(s.pool.last, s.errCh.reported)
    && (s.result.ContextDone? ==> s.cancelled)
  }

  lemma NextOutcomeFits(t: Traits, n: Name, pc: ServicePc, failures: nat, last: map<Name, Outcome>, cancelled: bool,
                        reported: seq<Failure>, outcome: Outcome, contextFirst: bool)
    requires AttemptsFit(t, pc, failures) && OutcomeFits(t, n, pc, failures, last, cancelled, reported)
    requires pc != Idle && pc != Gone
    ensures OutcomeFits(t, n, NextPc(t, cancelled, pc, outcome, contextFirst),
                        failures + if pc.Attempt? && outcome.Fails? then 1 else 0,
                        if pc.Attempt? then last[n := outcome] else last, cancelled,
                        if pc.Send? then reported + [Failure(n, pc.error)] else reported)
  {
    assert pc.Send? ==> (reported + [Failure(n, pc.error)])[|reported|] == Failure(n, pc.error);
  }

  lemma OutcomeStays(t: Traits, n: Name, pc: ServicePc, failures: nat, last: map<Name, Outcome>, cancelled: bool,
                     reported: seq<Failure>, m: Name, outcome: Outcome, cancelled': bool, reported': seq<Failure>)
    requires OutcomeFits(t, n, pc, failures, last, cancelled, reported) && m != n
    requires (cancelled ==> cancelled') && reported <= reported'
    ensures OutcomeFits(t, n, pc, failures, last, cancelled', reported')
    ensures OutcomeFits(t, n, pc, failures, last[m := outcome], cancelled', reported')
  {
    assert forall f :: f in reported ==> f in reported';
  }

  // ---------------------------------------------------------------- every step keeps it

  /** What a service's step does to its goroutine and to the channel. */
  lemma ServiceStepDoes(c: Config, s: State, n: Name, outcome: Outcome, contextFirst: bool)
    requires SameKeys(c, s) && ServiceStep(c, s, n, outcome, contextFirst).To? && !s.errCh.closed
    ensures n in s.pool.svc && s.pool.svc[n] != Idle && s.pool.svc[n] != Gone
    ensures var t, pc := ServiceStep(c, s, n, outcome, contextFirst).state, s.pool.svc[n];
            && t == s.(pool := t.pool, errCh := t.errCh)
            && t.pool.svc == s.pool.svc[n := NextPc(c.traits[n], s.cancelled, pc, outcome, contextFirst)]
            && t.pool.failures
               == s.pool.failures[n := s.pool.failures[n] + if pc.Attempt? && outcome.Fails? then 1 else 0]
            && t.pool.last == (if pc.Attempt? then s.pool.last[n := outcome] else s.pool.last)
            && t.errCh.reported
               == if pc.Send? then s.errCh.reported + [Failure(n, pc.error)] else s.errCh.reported
  {
    hide NextPc;
  }

  lemma ServiceKeepsEnds(c: Config, s: State, n: Name, outcome: Outcome, contextFirst: bool)
    requires InvAttempts(c, s.pool) && InvEnds(c, s.pool, s.cancelled, s.errCh.reported) && SameKeys(c, s)
    requires !s.errCh.closed && ServiceStep(c, s, n, outcome, contextFirst).To?
    ensures var t := ServiceStep(c, s, n, outcome, contextFirst).state;
            InvEnds(c, t.pool, t.cancelled, t.errCh.reported)
  {
    hide ServiceStep, NextPc, AttemptsFit, OutcomeFits;
    ServiceStepDoes(c, s, n, outcome, contextFirst);
    var t := ServiceStep(c, s, n, outcome, contextFirst).state;
    NextOutcomeFits(c.traits[n], n, s.pool.svc[n], s.pool.failures[n], s.pool.last, s.cancelled, s.errCh.reported,
                    outcome, contextFirst);
    forall m | m in c.traits && m != n
      ensures OutcomeFits(c.traits[m], m, t.pool.svc[m], t.pool.failures[m], t.pool.last, t.cancelled,
                          t.errCh.reported)
    {
      OutcomeStays(c.traits[m], m, s.pool.svc[m], s.pool.failures[m], s.pool.last, s.cancelled, s.errCh.reported, n,
                   outcome, t.cancelled, t.errCh.reported);
    }
  }

  lemma ServiceKeepsErrorsLast(c: Config, s: State, n: Name, outcome: Outcome, contextFirst: bool)
    requires InvReported(c, s.pool, s.errCh.reported) && SameKeys(c, s)
      && InvErrorsAreLast(s.pool.last, s.errCh.reported)
    requires InvEnds(c, s.pool, s.cancelled, s.errCh.reported)
    requires !s.errCh.closed && ServiceStep(c, s, n, outcome, contextFirst).To?
    ensures var t := ServiceStep(c, s, n, outcome, contextFirst).state;
            InvErrorsAreLast(t.pool.last, t.errCh.reported)
  {
    hide ServiceStep, NextPc;
    ServiceStepDoes(c, s, n, outcome, contextFirst);
    forall f | f in s.errCh.reported
      ensures f.service == n ==> !s.pool.svc[n].Attempt?
    {
      var i :| 0 <= i < |s.errCh.reported| && s.errCh.reported[i] == f;
      assert HasLeft(s.pool, s.errCh.reported[i].service);
    }
  }

  lemma EndsFramed(c: Config, p: Pool, cancelled: bool, reported: seq<Failure>, cancelled': bool)
    requires InvEnds(c, p, cancelled, reported) && (cancelled ==> cancelled')
    ensures InvEnds(c, p, cancelled', reported)
  {
  }

  lemma SpawnKeepsEnds(c: Config, p: Pool, n: Name, cancelled: bool, reported: seq<Failure>)
    requires InvEnds(c, p, cancelled, reported) && n in c.traits && p.svc[n] == Idle
    ensures InvEnds(c, Spawn(p, n), cancelled, reported)
  {
  }

  lemma NextIsIdle(c: Config, p: Pool, g: nat, j: nat)
    requires ValidConfig(c) && g < |c.groups| && j < |c.groups[g]| && !c.cyclic && p.svc.Keys == c.traits.Keys
    requires InvLaunched(c, p.svc, Slot(g, j))
    ensures c.groups[g][j] in p.svc && p.svc[c.groups[g][j]] == Idle
  {
    BeforeNext(c, g, j);
  }

  lemma StartSpawns(c: Config, s: State, p: bool)
    requires InStart(s.main) && StartStep(c, s, p).To? && InvMain(c, s.main, s.result, s.cancelSet)
    ensures var t := StartStep(c, s, p).state;
            t.pool == if s.main.Launch? && s.main.j < |c.groups[s.main.g]|
                      then Spawn(s.pool, c.groups[s.main.g][s.main.j]) else s.pool
  {
    hide Spawn, StillSpawned;
  }

  lemma StartKeepsOutcomes(c: Config, s: State, p: bool)
    requires ValidConfig(c) && Inv(c, s) && InvOutcomes(c, s) && InStart(s.main) && StartStep(c, s, p).To?
    ensures InvOutcomes(c, StartStep(c, s, p).state)
  {
    hide ValidConfig, InvLaunched, InvDrained, InvReady, InvWaitGroup, InvErrors, InvStopping, InvEnds, StartStep,
         Spawn;
    StartLeavesRest(c, s, p);
    StartSpawns(c, s, p);
    SpawnLeavesLast(s.pool);
    if s.main.Launch? && s.main.j < |c.groups[s.main.g]| {
      NextIsIdle(c, s.pool, s.main.g, s.main.j);
      SpawnKeepsEnds(c, s.pool, c.groups[s.main.g][s.main.j], s.cancelled, s.errCh.reported);
    }
  }

  lemma SpawnLeavesLast(p: Pool)
    ensures forall n :: Spawn(p, n).last == p.last
  {
  }

  lemma RunResults(c: Config, s: State, p: bool)
    requires !InStart(s.main) && RunStep(c, s, p).To?
    ensures var t := RunStep(c, s, p).state; t.result.ContextDone? ==> s.result.ContextDone? || s.cancelled
  {
  }

  lemma RunKeepsOutcomes(c: Config, s: State, p: bool)
    requires InvOutcomes(c, s) && !InStart(s.main) && RunStep(c, s, p).To?
    ensures InvOutcomes(c, RunStep(c, s, p).state)
  {
    hide RunStep, InvEnds, InvErrorsAreLast;
    RunFrame(c, s, p);
    RunResults(c, s, p);
  }

  /** A step that touches neither goroutines nor channel nor result. */
  lemma OutcomesFramed(c: Config, s: State, t: State)
    requires InvOutcomes(c, s) && t.pool == s.pool && t.errCh == s.errCh && t.result == s.result
    requires s.cancelled ==> t.cancelled
    ensures InvOutcomes(c, t)
  {
    EndsFramed(c, s.pool, s.cancelled, s.errCh.reported, t.cancelled);
  }

  lemma ServiceKeepsOutcomes(c: Config, s: State, n: Name, outcome: Outcome, contextFirst: bool)
    requires Inv(c, s) && InvOutcomes(c, s) && ServiceStep(c, s, n, outcome, contextFirst).To?
    ensures InvOutcomes(c, ServiceStep(c, s, n, outcome, contextFirst).state)
  {
    MovingService(c, s, n, outcome, contextFirst);
    hide InvRun, InvChannel, InvStopping, InvAttempts, InvReported, InvEnds, InvErrorsAreLast, ServiceStep, NextPc;
    ServiceKeepsEnds(c, s, n, outcome, contextFirst);
    ServiceKeepsErrorsLast(c, s, n, outcome, contextFirst);
    ServiceStepDoes(c, s, n, outcome, contextFirst);
  }

  lemma StepKeepsOutcomes(c: Config, s: State, a: Action)
    requires ValidConfig(c) && Inv(c, s) && InvOutcomes(c, s) && Step(c, s, a).To?
    ensures InvOutcomes(c, Step(c, s, a).state)
  {
    hide ValidConfig, Inv, InvOutcomes, StartStep, RunStep, ServiceStep, CallerStep, BodyStep, StopStep, JoinStep,
         SameKeys;
    InvHasKeys(c, s);
    var t := Step(c, s, a).state;
    match a {
      case Main(p) => if InStart(s.main) { StartKeepsOutcomes(c, s, p); } else { RunKeepsOutcomes(c, s, p); }
      case Service(n, outcome, contextFirst) => ServiceKeepsOutcomes(c, s, n, outcome, contextFirst);
      case Caller(id) => CallerMoves(s, id); OutcomesFramed(c, s, t);
      case Body => BodyMoves(s); OutcomesFramed(c, s, t);
      case _ => OutcomesFramed(c, s, t);
    }
  }

  lemma {:induction false} RunKeepsBoth(c: Config, s: State, acts: seq<Action>, t: State)
    requires ValidConfig(c) && Inv(c, s) && InvOutcomes(c, s) && Runs(c, s, acts, t)
    ensures Inv(c, t) && InvOutcomes(c, t)
    decreases |acts|
  {
    hide ValidConfig, Inv, InvOutcomes, Step;
    if acts != [] {
      StepKeepsOutcomes(c, s, acts[0]);
      StepKeepsInv(c, s, acts[0]);
      RunKeepsBoth(c, Step(c, s, acts[0]).state, acts[1..], t);
    }
  }

  lemma InitOutcomes(c: Config)
    ensures InvOutcomes(c, Init(c))
  {
  }

  lemma ReachableOutcomes(c: Config, s: State)
    requires ValidConfig(c) && Reachable(c, s)
    ensures Inv(c, s) && InvOutcomes(c, s)
  {
    var acts :| Runs(c, Init(c), acts, s);
    hide ValidConfig, Inv, InvOutcomes, Runs, Reachable;
    InitInv(c);
    InitOutcomes(c);
    RunKeepsBoth(c, Init(c), acts, s);
  }

  // ---------------------------------------------------------------- who is reported

  lemma LeftIsReported(c: Config, s: State, n: Name)
    requires Inv(c, s) && InvOutcomes(c, s) && !s.cancelled && n in c.traits
    requires n in s.pool.svc && (s.pool.svc[n] == Exiting || s.pool.svc[n] == Gone)
    ensures n in s.pool.last && n in s.pool.failures
    ensures s.pool.last[n].Succeeds? ==> s.pool.failures[n] <= c.traits[n].maxRetries
    ensures s.pool.last[n].Fails? ==>
      s.pool.failures[n] == c.traits[n].maxRetries + 1
      && (c.traits[n].allowedFailure <==> Failure(n, s.pool.last[n].error) !in s.errCh.reported)
  {
    hide InvRun, InvStopping, InvChannel, InvAttempts, InvErrorsAreLast;
    if s.pool.last[n].Fails? && Failure(n, s.pool.last[n].error) in s.errCh.reported {
      var i :| 0 <= i < |s.errCh.reported| && s.errCh.reported[i] == Failure(n, s.pool.last[n].error);
      assert s.errCh.reported[i].service in c.traits;
    }
  }

  /** A service whose goroutine leaves while nothing is cancelled has just had a run that succeeded, or
      has used every retry; and then it is reported, with the error of its last run, unless it may
      fail. */
  lemma LeavesDoneOrReported(c: Config, s: State, n: Name)
    requires ValidConfig(c) && Reachable(c, s) && !s.cancelled && n in c.traits
    requires n in s.pool.svc && (s.pool.svc[n] == Exiting || s.pool.svc[n] == Gone)
    ensures n in s.pool.last && n in s.pool.failures
    ensures s.pool.last[n].Succeeds? ==> s.pool.failures[n] <= c.traits[n].maxRetries
    ensures s.pool.last[n].Fails? ==>
      s.pool.failures[n] == c.traits[n].maxRetries + 1
      && (c.traits[n].allowedFailure <==> Failure(n, s.pool.last[n].error) !in s.errCh.reported)
  {
    hide Reachable, ValidConfig, Inv, InvOutcomes;
    ReachableOutcomes(c, s);
    LeftIsReported(c, s, n);
  }

  /** The other way round: with every retry used and its goroutine on the way out, a service that may
      not fail is reported. */
  lemma ExhaustedIsReported(c: Config, s: State, n: Name)
    requires ValidConfig(c) && Reachable(c, s) && !s.cancelled && n in c.traits && !c.traits[n].allowedFailure
    requires n in s.pool.svc && (s.pool.svc[n] == Exiting || s.pool.svc[n] == Gone)
    requires n in s.pool.failures && s.pool.failures[n] == c.traits[n].maxRetries + 1
    ensures exists error :: Failure(n, error) in s.errCh.reported
  {
    hide Reachable, ValidConfig;
    LeavesDoneOrReported(c, s, n);
  }

  /** What `Run` returns: a failure is the error of the last run of the service it names, and nil means
      that the context is cancelled. */
  lemma ResultIsTheLastError(c: Config, s: State)
    requires ValidConfig(c) && Reachable(c, s)
    ensures s.result.ContextDone? ==> s.cancelled
    ensures s.result.ServiceFailed? ==>
      s.result.failure.service in s.pool.last
      && s.pool.last[s.result.failure.service] == Fails(s.result.failure.error)
  {
    hide Reachable, ValidConfig;
    ReachableOutcomes(c, s);
    hide InvRun, InvStopping, InvAttempts, InvReported, InvEnds;
    if s.result.ServiceFailed? { assert s.errCh.reported[0] in s.errCh.reported; }
  }

  // ---------------------------------------------------------------- a failure that `Run` returns

  /** `Run` waits with nothing cancelled or about to be, or has taken a failure. */
  ghost predicate TakesFailure(s: State) {
    || (s.main.Select? && !s.cancelled && !AboutToCancel(s))
    || (AfterSelect(s.main) && s.result.ServiceFailed?)
  }

  lemma MainKeepsTakes(c: Config, s: State, p: bool)
    requires TakesFailure(s) && MainStep(c, s, p).To?
    ensures TakesFailure(MainStep(c, s, p).state)
  {
  }

  lemma TakesFramed(s: State, t: State)
    requires TakesFailure(s) && t.main == s.main && t.result == s.result
    requires t.cancelled == s.cancelled && t.stopping.callers == s.stopping.callers
    ensures TakesFailure(t)
  {
  }

  lemma CallerKeepsTakes(s: State, id: CallerId)
    requires TakesFailure(s) && CallerStep(s, id).To?
    ensures TakesFailure(CallerStep(s, id).state)
  {
    CallerMoves(s, id);
    var t := CallerStep(s, id).state;
    if s.main.Select? {
      assert s.stopping.callers[id] != Entered;
      forall other | other in t.stopping.callers
        ensures t.stopping.callers[other] != Entered
      {
        assert other in s.stopping.callers && s.stopping.callers[other] != Entered;
      }
    }
  }

  lemma StepKeepsTakes(c: Config, s: State, a: Action)
    requires SameKeys(c, s) && TakesFailure(s) && BySystem(a) && Step(c, s, a).To?
    ensures TakesFailure(Step(c, s, a).state)
  {
    hide TakesFailure, SameKeys, MainStep, ServiceStep, CallerStep, BodyStep, StopStep, JoinStep;
    var t := Step(c, s, a).state;
    match a {
      case Main(p) => MainKeepsTakes(c, s, p);
      case Service(n, outcome, contextFirst) => ServiceGrows(c, s, n, outcome, contextFirst); TakesFramed(s, t);
      case Caller(id) => CallerKeepsTakes(s, id);
      case Body => BodyMoves(s); TakesFramed(s, t);
      case StopGoroutine(n) => StopsLeaveCallers(s.stopping, n); TakesFramed(s, t);
      case StopJoined(n, _) => StopsLeaveCallers(s.stopping, n); TakesFramed(s, t);
    }
  }

  /** The last run that `n` gets has failed with `error`. */
  ghost predicate FailedForGood(c: Config, s: State, n: Name, error: Error) {
    && n in c.traits && n in s.pool.svc && n in s.pool.last && s.pool.last[n] == Fails(error)
    && match s.pool.svc[n]
       case Failed(k, _) => k >= c.traits[n].maxRetries
       case Handle(_) => true
       case Send(_) => true
       case Exiting => true
       case Gone => true
       case _ => false
  }

  lemma ServiceKeepsFailed(c: Config, s: State, m: Name, outcome: Outcome, contextFirst: bool, n: Name, error: Error)
    requires SameKeys(c, s) && FailedForGood(c, s, n, error) && ServiceStep(c, s, m, outcome, contextFirst).To?
    requires !s.errCh.closed
    ensures FailedForGood(c, ServiceStep(c, s, m, outcome, contextFirst).state, n, error)
  {
    ServiceStepDoes(c, s, m, outcome, contextFirst);
    hide ServiceStep;
    if m != n { hide NextPc; }
  }

  lemma StartKeepsFailed(c: Config, s: State, p: bool, n: Name, error: Error)
    requires ValidConfig(c) && Inv(c, s) && FailedForGood(c, s, n, error) && InStart(s.main) && StartStep(c, s, p).To?
    ensures FailedForGood(c, StartStep(c, s, p).state, n, error)
  {
    hide ValidConfig, InvLaunched, InvDrained, InvReady, InvWaitGroup, InvErrors, InvStopping, StartStep;
    StartSpawns(c, s, p);
    if s.main.Launch? && s.main.j < |c.groups[s.main.g]| { NextIsIdle(c, s.pool, s.main.g, s.main.j); }
  }

  lemma StepKeepsFailed(c: Config, s: State, a: Action, n: Name, error: Error)
    requires ValidConfig(c) && Inv(c, s) && FailedForGood(c, s, n, error) && Step(c, s, a).To?
    ensures FailedForGood(c, Step(c, s, a).state, n, error)
  {
    hide ValidConfig, Inv, SameKeys, StartStep, RunStep, ServiceStep, CallerStep, BodyStep, StopStep, JoinStep;
    InvHasKeys(c, s);
    match a {
      case Main(p) =>
        if InStart(s.main) { StartKeepsFailed(c, s, p, n, error); } else { RunFrame(c, s, p); hide FailedForGood; }
      case Service(m, outcome, contextFirst) =>
        MovingService(c, s, m, outcome, contextFirst);
        ServiceKeepsFailed(c, s, m, outcome, contextFirst, n, error);
        hide FailedForGood;
      case Caller(id) => CallerMoves(s, id);
      case Body => BodyMoves(s);
      case _ =>
    }
  }

  lemma {:induction false} FailedRunsOn(c: Config, s: State, acts: seq<Action>, t: State, n: Name, error: Error)
    requires ValidConfig(c) && Inv(c, s) && InvOutcomes(c, s) && Runs(c, s, acts, t) && Unaided(acts)
    requires FailedForGood(c, s, n, error) && TakesFailure(s)
    ensures Inv(c, t) && InvOutcomes(c, t) && FailedForGood(c, t, n, error) && TakesFailure(t)
    decreases |acts|
  {
    hide ValidConfig, Inv, InvOutcomes, Step, FailedForGood, TakesFailure, SameKeys, BySystem;
    if acts != [] {
      assert BySystem(acts[0]);
      StepKeepsOutcomes(c, s, acts[0]);
      StepKeepsFailed(c, s, acts[0], n, error);
      StepKeepsTakes(c, s, acts[0]);
      StepKeepsInv(c, s, acts[0]);
      FailedRunsOn(c, Step(c, s, acts[0]).state, acts[1..], t, n, error);
    }
  }

  lemma NobodyLeft(c: Config, s: State, n: Name)
    requires Inv(c, s) && s.pool.wg == 0 && n in s.pool.svc
    ensures s.pool.svc[n] == Idle || s.pool.svc[n] == Gone
  {
    if s.pool.svc[n] != Idle && s.pool.svc[n] != Gone { LiveIsCounted(s.pool, n); }
  }

  /** Behind the start lock, with nothing cancelled: when the last run of a service that may not fail has
      failed, every way to go on without help ends with `Run` returning the first failure reported. */
  lemma LastFailureEndsRun(c: Config, s: State, n: Name, error: Error, acts: seq<Action>, t: State)
    requires ValidConfig(c) && Reachable(c, s) && s.main.Select? && !s.cancelled && !AboutToCancel(s)
    requires FailedForGood(c, s, n, error) && !c.traits[n].allowedFailure
    requires Runs(c, s, acts, t) && Unaided(acts) && AtEnd(c, t)
    ensures t.main.Finished? && t.errCh.reported != [] && t.result == ServiceFailed(t.errCh.reported[0])
  {
    hide ValidConfig, Reachable, Inv, InvOutcomes, Runs, Unaided, AboutToCancel, CanMove, SameKeys;
    ReachableOutcomes(c, s);
    FailedRunsOn(c, s, acts, t, n, error);
    if !t.main.Finished? {
      StuckOnlyWaiting(c, t);
      NobodyLeft(c, t, n);
      LeftIsReported(c, t, n);
    }
    FailureTaken(c, t);
  }

  lemma FailureTaken(c: Config, s: State)
    requires Inv(c, s) && s.main.Finished? && TakesFailure(s)
    ensures s.errCh.reported != [] && s.result == ServiceFailed(s.errCh.reported[0])
  {
    hide InvRun, InvAttempts, InvReported, InvStopping;
  }

  // ---------------------------------------------------------------- after cancellation

  /** The service may still come to a further run. */
  predicate MayRun(pc: ServicePc) {
    pc.Idle? || pc.Spawned? || pc.Attempt? || pc.Delay?
  }

  predicate OnTheWayToReport(pc: ServicePc) {
    pc.Handle? || pc.Send?
  }

  /** From cancellation on: a service fails at most once more, and not again once a run of it has ended;
      and nothing is reported but what was on its way. */
  ghost predicate WindsDown(s: State, t: State) {
    && s.pool.svc.Keys == t.pool.svc.Keys == s.pool.failures.Keys == t.pool.failures.Keys
    && (forall n :: n in s.pool.svc ==>
          t.pool.failures[n] + (if MayRun(t.pool.svc[n]) then 1 else 0)
          <= s.pool.failures[n] + (if MayRun(s.pool.svc[n]) then 1 else 0))
    && (forall n :: n in s.pool.svc && OnTheWayToReport(t.pool.svc[n]) ==> OnTheWayToReport(s.pool.svc[n]))
    && (forall f :: f in t.errCh.reported ==>
          f in s.errCh.reported || (f.service in s.pool.svc && OnTheWayToReport(s.pool.svc[f.service])))
  }

  lemma WindsDownOn(s: State, t: State, u: State)
    requires WindsDown(s, t) && WindsDown(t, u)
    ensures WindsDown(s, u)
  {
  }

  lemma NextWindsDown(t: Traits, pc: ServicePc, outcome: Outcome, contextFirst: bool)
    ensures var next := NextPc(t, true, pc, outcome, contextFirst);
            && (OnTheWayToReport(next) ==> OnTheWayToReport(pc))
            && (if pc.Attempt? && outcome.Fails? then 1 else 0) + (if MayRun(next) then 1 else 0)
               <= (if MayRun(pc) then 1 else 0)
    ensures pc.Delay? ==> NextPc(t, true, pc, outcome, true) == Exiting
  {
  }

  lemma ServiceWindsDown(c: Config, s: State, n: Name, outcome: Outcome, contextFirst: bool)
    requires SameKeys(c, s) && s.cancelled && !s.errCh.closed && ServiceStep(c, s, n, outcome, contextFirst).To?
    ensures WindsDown(s, ServiceStep(c, s, n, outcome, contextFirst).state)
  {
    ServiceStepDoes(c, s, n, outcome, contextFirst);
    hide ServiceStep;
    NextWindsDown(c.traits[n], s.pool.svc[n], outcome, contextFirst);
    hide NextPc;
  }

  lemma StartWindsDown(c: Config, s: State, p: bool)
    requires ValidConfig(c) && Inv(c, s) && InStart(s.main) && StartStep(c, s, p).To?
    ensures WindsDown(s, StartStep(c, s, p).state)
  {
    hide ValidConfig, InvLaunched, InvDrained, InvReady, InvWaitGroup, InvErrors, InvStopping, StartStep;
    StartLeavesRest(c, s, p);
    StartSpawns(c, s, p);
    if s.main.Launch? && s.main.j < |c.groups[s.main.g]| { NextIsIdle(c, s.pool, s.main.g, s.main.j); }
  }

  lemma NothingMoves(s: State, t: State)
    requires t.pool == s.pool && t.errCh.reported == s.errCh.reported && s.pool.svc.Keys == s.pool.failures.Keys
    ensures WindsDown(s, t)
  {
  }

  lemma StepWindsDown(c: Config, s: State, a: Action)
    requires ValidConfig(c) && Inv(c, s) && s.cancelled && Step(c, s, a).To?
    ensures WindsDown(s, Step(c, s, a).state)
  {
    hide ValidConfig, Inv, WindsDown, StartStep, RunStep, ServiceStep, CallerStep, BodyStep, StopStep, JoinStep;
    InvHasKeys(c, s);
    var t := Step(c, s, a).state;
    match a {
      case Main(p) =>
        if InStart(s.main) { StartWindsDown(c, s, p); } else { RunFrame(c, s, p); NothingMoves(s, t); }
      case Service(n, outcome, contextFirst) =>
        MovingService(c, s, n, outcome, contextFirst);
        ServiceWindsDown(c, s, n, outcome, contextFirst);
      case Caller(id) => CallerMoves(s, id); NothingMoves(s, t);
      case Body => BodyMoves(s); NothingMoves(s, t);
      case _ => NothingMoves(s, t);
    }
  }

  lemma {:induction false} CancelledRunWindsDown(c: Config, s: State, acts: seq<Action>, t: State)
    requires ValidConfig(c) && Inv(c, s) && s.cancelled && Runs(c, s, acts, t)
    ensures WindsDown(s, t)
    decreases |acts|
  {
    InvHasKeys(c, s);
    hide ValidConfig, Inv, Step, WindsDown;
    if acts == [] {
      NothingMoves(s, t);
    } else {
      var m := Step(c, s, acts[0]).state;
      StepWindsDown(c, s, acts[0]);
      StepKeepsInv(c, s, acts[0]);
      StaysCancelled(c, s, acts[0]);
      CancelledRunWindsDown(c, m, acts[1..], t);
      WindsDownOn(s, m, t);
    }
  }

  /** After cancellation no service is tried again: each fails at most once more, and not at all once a
      run of it has ended; no failure is reported but one that was on its way; and a service that waits
      to be tried again can leave instead. */
  lemma NoRetryAfterCancel(c: Config, s: State, acts: seq<Action>, t: State, n: Name)
    requires ValidConfig(c) && Reachable(c, s) && s.cancelled && Runs(c, s, acts, t) && n in c.traits
    ensures n in s.pool.svc && n in s.pool.failures && n in t.pool.failures
    ensures t.pool.failures[n] <= s.pool.failures[n] + 1
    ensures s.pool.svc[n].Failed? || s.pool.svc[n].Handle? || s.pool.svc[n].Send? ==>
      t.pool.failures[n] <= s.pool.failures[n]
    ensures forall f :: f in t.errCh.reported && f.service == n ==>
      f in s.errCh.reported || s.pool.svc[n].Handle? || s.pool.svc[n].Send?
    ensures s.pool.svc[n].Delay? ==>
      var next := ServiceStep(c, s, n, Succeeds, true);
      next.To? && n in next.state.pool.svc && next.state.pool.svc[n] == Exiting
  {
    hide Reachable, Runs, Inv, ValidConfig, ServiceStep;
    ReachableInv(c, s);
    InvHasKeys(c, s);
    CancelledRunWindsDown(c, s, acts, t);
    if s.pool.svc[n].Delay? { DelayCanLeave(c, s, n); }
  }

  lemma DelayCanLeave(c: Config, s: State, n: Name)
    requires SameKeys(c, s) && s.cancelled && n in s.pool.svc && s.pool.svc[n].Delay?
    ensures var next := ServiceStep(c, s, n, Succeeds, true);
            next.To? && n in next.state.pool.svc && next.state.pool.svc[n] == Exiting
  {
  }
}

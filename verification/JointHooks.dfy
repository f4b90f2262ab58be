/** When the post-stop hooks find all service goroutines gone. */
module JointHooks {
  import opened DependencyOrder
  import opened JointProtocol
  import opened StopCallers
  import A = AppProtocol
  import M = ManagerProtocol
  import MI = ManagerInvariant
  import MT = ManagerTheorems
  import MF = ManagerFailure

  predicate NoServiceLive(m: M.State) {
    forall n :: n in m.pool.svc ==> m.pool.svc[n].Idle? || m.pool.svc[n].Gone?
  }

  /** The post-stop hooks are next, or have run. */
  predicate HooksDue(app: A.State) {
    app.once.Over? || (app.once.Claimed? && app.once.body.PostStop?)
  }

  // ---------------------------------------------------------------- hooks of a launched manager

  lemma GoneLeavesNoService(a: A.App, c: M.Config, s: State)
    requires M.ValidConfig(c) && Inv(a, c, s) && s.app.manager.Gone?
    ensures s.manager.main.Finished? && NoServiceLive(s.manager)
  {
    hide M.ValidConfig, M.Reachable, A.Reachable;
    MT.RunLeavesNothingBehind(c, s.manager);
  }

  lemma StepKeepsWaits(a: A.App, c: M.Config, s: State, act: Action)
    requires A.Inv(a, s.app) && A.WaitsForManager(s.app) && M.SameKeys(c, s.manager) && Step(a, c, s, act).To?
    ensures A.WaitsForManager(Step(a, c, s, act).state.app)
  {
    hide A.Inv, A.Step, M.Step, ManagerMay, AppMay;
    if act.App? && A.Step(a, s.app, act.app).To? { A.WaitIsKept(a, s.app, act.app); }
  }

  lemma {:induction false} WaitsStay(a: A.App, c: M.Config, s: State, acts: seq<Action>, t: State)
    requires M.ValidConfig(c) && Inv(a, c, s) && A.WaitsForManager(s.app) && Runs(a, c, s, acts, t)
    ensures Inv(a, c, t) && A.WaitsForManager(t.app)
    decreases |acts|
  {
    hide M.ValidConfig, A.WaitsForManager, Step, M.SameKeys, M.Reachable, A.Reachable, Tied, A.Inv;
    if acts != [] {
      A.ReachableInv(a, s.app);
      StepKeepsInv(a, c, s, acts[0]);
      StepKeepsWaits(a, c, s, acts[0]);
      hide Inv;
      WaitsStay(a, c, Step(a, c, s, acts[0]).state, acts[1..], t);
    }
  }

  lemma LaunchedIsWaitedFor(a: A.App, s: A.State)
    requires A.Inv(a, s) && s.once.Claimed? && s.once.body.WaitManager? && !s.manager.NotLaunched?
    ensures A.WaitsForManager(s)
  {
  }

  lemma HooksFindServicesGone(a: A.App, c: M.Config, s: State, acts: seq<Action>, t: State)
    requires M.ValidConfig(c) && Inv(a, c, s) && s.app.once.Claimed? && s.app.once.body.WaitManager?
    requires !s.app.manager.NotLaunched? && Runs(a, c, s, acts, t)
    ensures HooksDue(t.app) ==> NoServiceLive(t.manager)
  {
    hide M.ValidConfig, M.Reachable, A.Reachable, Tied, Runs, M.SameKeys;
    A.ReachableInv(a, s.app);
    LaunchedIsWaitedFor(a, s.app);
    hide A.Inv;
    WaitsStay(a, c, s, acts, t);
    if HooksDue(t.app) { GoneLeavesNoService(a, c, t); }
  }

  // ---------------------------------------------------------------- hooks of one that is still to come

  lemma OneMore(a: A.App, c: M.Config, s: State, act: Action, acts: seq<Action>, t: State)
    requires M.SameKeys(c, s.manager) && Step(a, c, s, act).To? && Runs(a, c, Step(a, c, s, act).state, acts, t)
    ensures Runs(a, c, s, [act] + acts, t)
  {
    hide Step, M.SameKeys;
    assert ([act] + acts)[1..] == acts;
  }

  lemma {:induction false} RunsOn(a: A.App, c: M.Config, s: State, acts: seq<Action>, t: State, more: seq<Action>,
                                  u: State)
    requires Runs(a, c, s, acts, t) && Runs(a, c, t, more, u)
    ensures Runs(a, c, s, acts + more, u)
    decreases |acts|
  {
    hide Step, M.SameKeys;
    if acts == [] {
      assert [] + more == more;
    } else {
      RunsOn(a, c, Step(a, c, s, acts[0]).state, acts[1..], t, more, u);
      assert (acts + more)[1..] == acts[1..] + more;
    }
  }

  /** The steps `App.Run` has before it launches the manager. */
  function ToLaunch(a: A.App, main: A.MainPc): nat {
    match main
    case SetCancel => a.preRun + 2
    case PreRun(i) => if i <= a.preRun then a.preRun - i + 1 else 1
    case _ => 0
  }

  lemma OneCloser(a: A.App, s: State)
    requires A.Inv(a, s.app) && Tied(s) && s.app.manager.NotLaunched?
    ensures var next := AppStep(a, s, A.Main(false));
            && next.To? && next.state.app.once == s.app.once && next.state.manager == s.manager
            && (next.state.app.manager.InRun?
                || (next.state.app.manager.NotLaunched?
                    && ToLaunch(a, next.state.app.main) < ToLaunch(a, s.app.main)))
  {
    hide A.InvCallers, TiedErrors;
  }

  lemma {:induction false} LaunchesManager(a: A.App, c: M.Config, s: State) returns (acts: seq<Action>, t: State)
    requires M.ValidConfig(c) && Inv(a, c, s) && s.app.manager.NotLaunched?
    ensures Runs(a, c, s, acts, t) && Inv(a, c, t)
    ensures t.app.manager.InRun? && t.app.once == s.app.once && t.manager == s.manager
    decreases ToLaunch(a, s.app.main)
  {
    hide M.ValidConfig, M.Reachable, A.Reachable, Tied, A.Inv, AppStep, ToLaunch;
    A.ReachableInv(a, s.app);
    OneCloser(a, s);
    var main := App(A.Main(false));
    var m := Step(a, c, s, main).state;
    StepKeepsInv(a, c, s, main);
    if m.app.manager.InRun? {
      acts, t := [main] + [], m;
      assert Runs(a, c, t, [], t);
      hide Inv, Runs;
      OneMore(a, c, s, main, [], t);
    } else {
      hide Runs;
      var more;
      more, t := LaunchesManager(a, c, m);
      OneMore(a, c, s, main, more, t);
      acts := [main] + more;
    }
  }

  /** The start lock is free: the manager's once-body is over, and `Run` has not taken it. */
  lemma StartLockIsFree(c: M.Config, s: M.State)
    requires MI.Inv(c, s) && s.main.SetCancel? && BodyIsBack(s)
    ensures !s.writer && !s.reader
  {
    hide MI.InvRun, MI.InvErrors, MI.InvGroups, MI.InvSeen, MI.InvStops, MI.InvCalls;
  }

  lemma SpawnedIsLive(t: M.State, n: Name)
    requires n in t.pool.svc && t.pool.svc[n].Spawned?
    ensures !NoServiceLive(t)
  {
  }

  lemma SpawnsService(a: A.App, c: M.Config, s: State) returns (acts: seq<Action>, t: State)
    requires M.ValidConfig(c) && Inv(a, c, s) && s.app.manager.InRun? && s.manager.main.SetCancel?
    requires PastManager(s.app) && |c.traits| > 0 && !c.cyclic
    ensures Runs(a, c, s, acts, t) && t.app == s.app && !NoServiceLive(t.manager)
  {
    hide M.Reachable, A.Reachable, MI.Inv, M.ValidConfig, TiedErrors, M.MainStep, M.SameKeys, NoServiceLive, Step, Runs;
    MI.ReachableInv(c, s.manager);
    StartLockIsFree(c, s.manager);
    var m1, m2, m3, m4 := MF.FirstLaunch(c, s.manager);
    SpawnedIsLive(m4, c.groups[0][0]);
    var main := Manager(M.Main(false));
    var s1, s2, s3 := s.(manager := m1), s.(manager := m2), s.(manager := m3);
    t := s.(manager := m4);
    RunMoves(a, c, s, m1);
    RunMoves(a, c, s1, m2);
    RunMoves(a, c, s2, m3);
    RunMoves(a, c, s3, m4);
    NoSteps(a, c, t);
    OneMore(a, c, s3, main, [], t);
    OneMore(a, c, s2, main, [main] + [], t);
    OneMore(a, c, s1, main, [main] + ([main] + []), t);
    acts := [main] + ([main] + ([main] + ([main] + [])));
    OneMore(a, c, s, main, [main] + ([main] + ([main] + [])), t);
  }

  lemma NoSteps(a: A.App, c: M.Config, s: State)
    requires M.SameKeys(c, s.manager)
    ensures Runs(a, c, s, [], s)
  {
  }

  lemma RunMoves(a: A.App, c: M.Config, s: State, m: M.State)
    requires M.SameKeys(c, s.manager) && s.app.manager.InRun? && M.MainStep(c, s.manager, false) == M.To(m)
    ensures Step(a, c, s, Manager(M.Main(false))) == To(s.(manager := m))
  {
    hide M.MainStep, M.SameKeys;
  }

  /** The once-body meets no manager goroutine and goes on to the hooks; then `App.Run` launches the
      manager, which spawns its first service before any hook has run. */
  lemma HooksBeforeServices(a: A.App, c: M.Config, s: State) returns (acts: seq<Action>, t: State)
    requires M.ValidConfig(c) && Inv(a, c, s) && s.app.once.Claimed? && s.app.once.body.WaitManager?
    requires s.app.manager.NotLaunched? && |c.traits| > 0 && !c.cyclic
    ensures Runs(a, c, s, acts, t) && HooksDue(t.app) && !NoServiceLive(t.manager)
  {
    hide M.Reachable, A.Reachable, M.ValidConfig, TiedErrors, NoServiceLive, Runs, A.InvCallers, A.InvHooks;
    A.ReachableInv(a, s.app);
    var m := Step(a, c, s, App(A.Body)).state;
    assert m.app.manager.NotLaunched? && HooksDue(m.app) && m.manager == s.manager && s.manager.main.SetCancel?;
    StepKeepsInv(a, c, s, App(A.Body));
    var first, u := LaunchesManager(a, c, m);
    var more;
    more, t := SpawnsService(a, c, u);
    RunsOn(a, c, m, first, u, more, t);
    OneMore(a, c, s, App(A.Body), first + more, t);
    acts := [App(A.Body)] + (first + more);
  }

  /** Post-stop hooks are registered to run after all services stop. With services to run, they find
      no service goroutine live, in any continuation, exactly when `App.Run` had launched the
      manager by the time the once-body begins to wait for it. */
  lemma HooksFollowServicesIffLaunched(a: A.App, c: M.Config, s: State)
    requires M.ValidConfig(c) && Reachable(a, c, s) && |c.traits| > 0 && !c.cyclic
    requires s.app.once.Claimed? && s.app.once.body.WaitManager?
    ensures (forall acts, t :: Runs(a, c, s, acts, t) && HooksDue(t.app) ==> NoServiceLive(t.manager))
      <==> !s.app.manager.NotLaunched?
  {
    hide M.ValidConfig, Reachable, Inv, Runs, HooksDue, NoServiceLive;
    ReachableInv(a, c, s);
    if s.app.manager.NotLaunched? {
      var acts, t := HooksBeforeServices(a, c, s);
    } else {
      forall acts, t | Runs(a, c, s, acts, t) && HooksDue(t.app)
        ensures NoServiceLive(t.manager)
      {
        HooksFindServicesGone(a, c, s, acts, t);
      }
    }
  }

  // ---------------------------------------------------------------- such a state is reached

  lemma ReachesNext(a: A.App, c: M.Config, s: State, act: Action)
    requires M.ValidConfig(c) && Reachable(a, c, s) && M.SameKeys(c, s.manager) && Step(a, c, s, act).To?
    ensures Reachable(a, c, Step(a, c, s, act).state) && M.SameKeys(c, Step(a, c, s, act).state.manager)
  {
    hide M.ValidConfig, M.SameKeys, Step, Init, Runs, M.Reachable, A.Reachable, Tied;
    var t := Step(a, c, s, act).state;
    ReachableInv(a, c, s);
    StepKeepsInv(a, c, s, act);
    var acts :| Runs(a, c, Init(c), acts, s);
    NoSteps(a, c, t);
    OneMore(a, c, s, act, [], t);
    RunsOn(a, c, Init(c), acts, s, [act] + [], t);
  }

  lemma AppReaches(a: A.App, c: M.Config, s: State, x: A.Action) returns (t: State)
    requires M.ValidConfig(c) && Reachable(a, c, s) && M.SameKeys(c, s.manager) && AppStep(a, s, x).To?
    ensures t == AppStep(a, s, x).state && Reachable(a, c, t) && M.SameKeys(c, t.manager)
  {
    hide M.ValidConfig, M.SameKeys, AppStep, Reachable;
    ReachesNext(a, c, s, App(x));
    t := AppStep(a, s, x).state;
  }

  lemma ManagerReaches(a: A.App, c: M.Config, s: State, x: M.Action, m: M.State) returns (t: State)
    requires M.ValidConfig(c) && Reachable(a, c, s) && M.SameKeys(c, s.manager)
    requires ManagerMay(s, x) && M.Step(c, s.manager, x) == M.To(m)
    ensures t == s.(manager := m) && Reachable(a, c, t) && M.SameKeys(c, m)
  {
    hide M.ValidConfig, M.SameKeys, M.Step, ManagerMay, Reachable;
    ReachesNext(a, c, s, Manager(x));
    t := s.(manager := m);
  }

  lemma NothingDone(a: A.App, c: M.Config)
    ensures Reachable(a, c, Init(c)) && M.SameKeys(c, M.Init(c))
  {
    NoSteps(a, c, Init(c));
  }

  lemma BodyClaims(a: A.App, c: M.Config) returns (s: State)
    requires M.ValidConfig(c)
    ensures Reachable(a, c, s) && M.SameKeys(c, s.manager)
    ensures s.app.once == A.Claimed(External(0), A.StopManager) && s.app.manager.NotLaunched?
    ensures s.manager == M.Init(c)
  {
    hide M.ValidConfig, M.SameKeys, Reachable, M.Init;
    NothingDone(a, c);
    var s1 := AppReaches(a, c, Init(c), A.CallStop(0));
    var s2 := AppReaches(a, c, s1, A.Caller(External(0)));
    s := AppReaches(a, c, s2, A.Caller(External(0)));
  }

  /** The once-body's way through the manager's `Stop` before anything has been started. */
  lemma StopIsThrough(c: M.Config) returns (ms: seq<M.State>)
    ensures |ms| == 7 && ms[0] == EnterStop(M.Init(c)) && BodyIsBack(ms[6])
    ensures M.CallerStep(ms[0], BODY) == M.To(ms[1]) && M.CallerStep(ms[1], BODY) == M.To(ms[2])
    ensures M.BodyStep(ms[2]) == M.To(ms[3]) && M.BodyStep(ms[3]) == M.To(ms[4]) && M.BodyStep(ms[4]) == M.To(ms[5])
    ensures M.CallerStep(ms[5], BODY) == M.To(ms[6])
  {
    var m0 := EnterStop(M.Init(c));
    var m1 := M.CallerStep(m0, BODY).state;
    var m2 := M.CallerStep(m1, BODY).state;
    var m3 := M.BodyStep(m2).state;
    var m4 := M.BodyStep(m3).state;
    var m5 := M.BodyStep(m4).state;
    ms := [m0, m1, m2, m3, m4, m5, M.CallerStep(m5, BODY).state];
  }

  lemma BodyComesBack(a: A.App, c: M.Config, s: State) returns (t: State)
    requires M.ValidConfig(c) && Reachable(a, c, s) && M.SameKeys(c, s.manager)
    requires s.manager == M.Init(c) && StopsManager(s.app)
    ensures Reachable(a, c, t) && M.SameKeys(c, t.manager) && t.app == s.app && BodyIsBack(t.manager)
  {
    hide M.ValidConfig, M.SameKeys, Reachable, M.CallerStep, M.BodyStep;
    var ms := StopIsThrough(c);
    var s0 := AppReaches(a, c, s, A.Body);
    hide AppStep, EnterStop, BodyIsBack;
    var s1 := ManagerReaches(a, c, s0, M.Caller(BODY), ms[1]);
    var s2 := ManagerReaches(a, c, s1, M.Caller(BODY), ms[2]);
    var s3 := ManagerReaches(a, c, s2, M.Body, ms[3]);
    var s4 := ManagerReaches(a, c, s3, M.Body, ms[4]);
    var s5 := ManagerReaches(a, c, s4, M.Body, ms[5]);
    t := ManagerReaches(a, c, s5, M.Caller(BODY), ms[6]);
  }

  /** One early caller of `App.Stop` reaches a state in which the once-body waits for a manager that is
      still to be launched. */
  lemma EarlyStopReachesIt(a: A.App, c: M.Config) returns (s: State)
    requires M.ValidConfig(c)
    ensures Reachable(a, c, s) && s.app.once == A.Claimed(External(0), A.WaitManager) && s.app.manager.NotLaunched?
  {
    hide M.ValidConfig, M.SameKeys, Reachable;
    var s0 := BodyClaims(a, c);
    var s1 := BodyComesBack(a, c, s0);
    s := AppReaches(a, c, s1, A.Body);
  }
}

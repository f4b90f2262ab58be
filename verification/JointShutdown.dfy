/** The application together with its service manager comes to an end, and what it then returns. */
module JointShutdown {
  import opened Common
  import opened StopCallers
  import opened JointProtocol
  import opened JointHooks
  import A = AppProtocol
  import M = ManagerProtocol
  import MI = ManagerInvariant
  import MT = ManagerTheorems
  import MS = ManagerShutdown
  import MF = ManagerFailure
  import Shutdown = AppShutdown

  // ---------------------------------------------------------------- every step uses up a supply

  predicate BySystem(act: Action) {
    match act
    case App(x) => Shutdown.BySystem(x)
    case Manager(x) => MS.BySystem(x)
  }

  predicate IsNewCaller(act: Action) {
    match act
    case App(x) => x.CallStop?
    case Manager(x) => x.CallStop?
  }

  /** The steps of both sides, and the once-body's own call of the manager's `Stop`. */
  ghost function Supply(a: A.App, c: M.Config, s: State): int {
    Shutdown.Supply(a, s.app) + MS.Supply(c, s.manager) + if BODY in s.manager.stopping.callers then 0 else 5
  }

  lemma SupplyIsNatural(a: A.App, c: M.Config, s: State)
    requires M.ValidConfig(c) && Inv(a, c, s)
    ensures Supply(a, c, s) >= 0
  {
    hide M.ValidConfig, M.Reachable, A.Reachable, Tied, MI.Inv, A.Inv, MS.Supply, Shutdown.Supply;
    A.ReachableInv(a, s.app);
    MI.ReachableInv(c, s.manager);
    Shutdown.SupplyIsNatural(a, s.app);
    MS.SupplyIsNatural(c, s.manager);
  }

  lemma ContextSupplies(c: M.Config, s: M.State)
    ensures MS.Supply(c, s.(cancelled := true)) == MS.Supply(c, s)
  {
    hide MS.MainRank, MS.OnceRank, MS.ServiceSupply, MS.StopCallSupply, CallerSupply;
  }

  lemma AppStepUses(a: A.App, c: M.Config, s: State, x: A.Action)
    requires A.Inv(a, s.app) && M.SameKeys(c, s.manager) && Shutdown.BySystem(x) && AppStep(a, s, x).To?
    ensures Supply(a, c, AppStep(a, s, x).state) < Supply(a, c, s)
  {
    hide A.Inv, A.Step, MS.Supply, Shutdown.Supply, AppMay;
    if x.Body? && StopsManager(s.app) && BODY !in s.manager.stopping.callers {
      MS.EnvironmentSupplies(c, s.manager, M.CallStop(0));
    } else {
      Shutdown.StepUses(a, s.app, x);
      ContextSupplies(c, s.manager);
    }
  }

  lemma ManagerStepUses(a: A.App, c: M.Config, s: State, x: M.Action)
    requires M.ValidConfig(c) && MI.Inv(c, s.manager) && MS.BySystem(x) && M.SameKeys(c, s.manager)
    requires ManagerStep(c, s, x).To?
    ensures Supply(a, c, ManagerStep(c, s, x).state) < Supply(a, c, s)
  {
    hide M.ValidConfig, MI.Inv, MS.Supply, Shutdown.Supply, M.Step, MS.BySystem, M.SameKeys;
    MS.StepUses(c, s.manager, x);
    ManagerStepKeeps(c, s.manager, x);
  }

  lemma StepUses(a: A.App, c: M.Config, s: State, act: Action)
    requires M.ValidConfig(c) && Inv(a, c, s) && BySystem(act) && Step(a, c, s, act).To?
    ensures Supply(a, c, Step(a, c, s, act).state) < Supply(a, c, s)
  {
    hide M.ValidConfig, M.Reachable, A.Reachable, Tied, A.Inv, MI.Inv, Supply, AppStep, ManagerStep, MS.BySystem,
         Shutdown.BySystem;
    A.ReachableInv(a, s.app);
    MI.ReachableInv(c, s.manager);
    match act {
      case App(x) => AppStepUses(a, c, s, x);
      case Manager(x) => ManagerStepUses(a, c, s, x);
    }
  }

  lemma EnvironmentSupplies(a: A.App, c: M.Config, s: State, act: Action)
    requires M.SameKeys(c, s.manager) && !BySystem(act) && Step(a, c, s, act).To?
    ensures Supply(a, c, Step(a, c, s, act).state) <= Supply(a, c, s) + if IsNewCaller(act) then 4 else 0
  {
    hide A.Step, M.Step, MS.Supply, Shutdown.Supply, M.SameKeys;
    match act {
      case App(x) =>
        Shutdown.EnvironmentSupplies(a, s.app, x);
        ContextSupplies(c, s.manager);
      case Manager(x) =>
        MS.EnvironmentSupplies(c, s.manager, x);
        ManagerStepKeeps(c, s.manager, x);
    }
  }

  lemma StaysCancelled(a: A.App, c: M.Config, s: State, act: Action)
    requires M.SameKeys(c, s.manager) && s.app.cancelled && Step(a, c, s, act).To?
    ensures Step(a, c, s, act).state.app.cancelled
  {
    hide M.Step, M.SameKeys, A.Step, AppMay, ManagerMay;
    if act.App? && A.Step(a, s.app, act.app).To? { AppStaysCancelled(a, s.app, act.app); }
  }

  lemma AppStaysCancelled(a: A.App, s: A.State, x: A.Action)
    requires s.cancelled && A.Step(a, s, x).To?
    ensures A.Step(a, s, x).state.cancelled
  {
    match x {
      case Main(_) =>
      case Manager(_) => hide A.MainStep, A.CallerStep, A.BodyStep;
      case Caller(_) => hide A.MainStep, A.ManagerStep, A.BodyStep;
      case Body => hide A.MainStep, A.ManagerStep, A.CallerStep;
      case _ => hide A.MainStep, A.ManagerStep, A.CallerStep, A.BodyStep;
    }
  }

  lemma {:induction false} SupplyBoundsRun(a: A.App, c: M.Config, s: State, acts: seq<Action>, t: State)
    requires M.ValidConfig(c) && Inv(a, c, s) && Runs(a, c, s, acts, t)
    ensures Inv(a, c, t) && (s.app.cancelled ==> t.app.cancelled)
    ensures Count(acts, BySystem) + Supply(a, c, t) <= Supply(a, c, s) + 4 * Count(acts, IsNewCaller)
    decreases |acts|
  {
    hide M.ValidConfig, Inv, Step, Supply, M.SameKeys;
    if acts != [] {
      StepKeepsInv(a, c, s, acts[0]);
      if s.app.cancelled { StaysCancelled(a, c, s, acts[0]); }
      if BySystem(acts[0]) { StepUses(a, c, s, acts[0]); } else { EnvironmentSupplies(a, c, s, acts[0]); }
      SupplyBoundsRun(a, c, Step(a, c, s, acts[0]).state, acts[1..], t);
    }
  }

  // ---------------------------------------------------------------- nothing gets stuck

  /** Some goroutine can take a step. */
  ghost predicate CanMove(a: A.App, c: M.Config, s: State)
    requires M.SameKeys(c, s.manager)
  {
    exists act :: BySystem(act) && Step(a, c, s, act).To?
  }

  /** `App.Run` waits at its select for something from outside: the manager waits, or its `Run` has
      returned nil because its own context was done. */
  ghost predicate Waits(c: M.Config, s: State) {
    && !s.app.cancelled && s.app.main.Select? && s.app.buffer.None?
    && ((s.app.manager.InRun? && MS.Waits(c, s.manager)) || (s.app.manager.Gone? && s.manager.result.ContextDone?))
  }

  lemma AppGivesMove(a: A.App, c: M.Config, s: State, x: A.Action)
    requires M.SameKeys(c, s.manager) && Shutdown.BySystem(x) && AppStep(a, s, x).To?
    ensures CanMove(a, c, s)
  {
    hide AppStep, Shutdown.BySystem, M.SameKeys;
    assert Step(a, c, s, App(x)).To? && BySystem(App(x));
  }

  lemma ManagerGivesMove(a: A.App, c: M.Config, s: State, x: M.Action)
    requires M.SameKeys(c, s.manager) && MS.BySystem(x) && M.Step(c, s.manager, x).To?
    requires x.Main? ==> s.app.manager.InRun?
    ensures CanMove(a, c, s)
  {
    assert ManagerMay(s, x);
    hide MS.BySystem, M.Step, ManagerMay, M.SameKeys;
    assert Step(a, c, s, Manager(x)).To? && BySystem(Manager(x));
  }

  /** While the goroutine is in the manager's `Run`, the manager moves, or waits, or has returned. */
  lemma InRunMoves(a: A.App, c: M.Config, s: State)
    requires M.ValidConfig(c) && Inv(a, c, s) && s.app.manager.InRun?
    ensures CanMove(a, c, s) || MS.Waits(c, s.manager)
  {
    hide M.ValidConfig, M.Reachable, A.Reachable, TiedPlaces, TiedErrors, MI.Inv, CanMove, MS.Waits, M.SameKeys, M.Step,
         MS.BySystem;
    if s.manager.main.Finished? {
      var back := A.Manager(ErrorOf(s.manager.result));
      hide ErrorOf;
      AppGivesMove(a, c, s, back);
    } else {
      MI.ReachableInv(c, s.manager);
      MS.StuckOnlyWaiting(c, s.manager);
      if MS.CanMove(c, s.manager) {
        var x :| MS.BySystem(x) && M.Step(c, s.manager, x).To?;
        ManagerGivesMove(a, c, s, x);
      }
    }
  }

  /** The once-body does not wait for ever on the manager's `Stop`, once the manager's `Run` is over. */
  lemma BodyMoves(a: A.App, c: M.Config, s: State)
    requires M.ValidConfig(c) && Inv(a, c, s) && s.app.manager.Gone? && s.app.once.Claimed?
    ensures CanMove(a, c, s)
  {
    hide M.ValidConfig, M.Reachable, A.Reachable, TiedErrors, CanMove, A.InvCallers, A.InvHooks, M.SameKeys;
    A.ReachableInv(a, s.app);
    MT.RunLeavesNothingBehind(c, s.manager);
    if StopsManager(s.app) && BODY in s.manager.stopping.callers && !BodyIsBack(s.manager) {
      CallerMoves(c, s.manager, BODY);
      hide M.CallerStep, MS.BySystem;
      ManagerGivesMove(a, c, s, M.Caller(BODY));
    } else {
      AppGivesMove(a, c, s, A.Body);
    }
  }

  lemma CallerMoves(c: M.Config, s: M.State, id: CallerId)
    requires id in s.stopping.callers && s.stopping.callers[id] != Returned && s.stopping.once.Over?
    ensures M.CallerStep(s, id).To? && MS.BySystem(M.Caller(id))
  {
  }

  /** The manager's goroutine has gone: `App.Run` moves, or waits with nothing cancelled and no
      error. */
  lemma GoneMoves(a: A.App, c: M.Config, s: State)
    requires M.ValidConfig(c) && Inv(a, c, s) && s.app.manager.Gone? && !s.app.main.Finished?
    ensures CanMove(a, c, s) || (!s.app.cancelled && s.app.main.Select? && s.app.buffer.None?)
  {
    hide M.ValidConfig, M.Reachable, A.Reachable, Tied, CanMove, A.InvHooks, M.SameKeys;
    A.ReachableInv(a, s.app);
    if s.app.once.Claimed? {
      BodyMoves(a, c, s);
    } else if s.app.main.DeferredStop? && s.app.callers[Deferred] != Returned {
      AppGivesMove(a, c, s, A.Caller(Deferred));
    } else if !s.app.main.Select? || s.app.cancelled || s.app.buffer.Some? {
      AppGivesMove(a, c, s, A.Main(true));
    }
  }

  lemma OthersMove(a: A.App, c: M.Config, s: State)
    requires A.Reachable(a, s.app) && M.SameKeys(c, s.manager)
    requires s.app.manager.NotLaunched? || s.app.manager.Sending? || s.app.manager.Leaving?
    ensures CanMove(a, c, s)
  {
    hide A.Reachable, CanMove, A.InvHooks, A.InvCallers, M.SameKeys;
    A.ReachableInv(a, s.app);
    if s.app.manager.NotLaunched? {
      AppGivesMove(a, c, s, A.Main(true));
    } else {
      AppGivesMove(a, c, s, A.Manager(None));
    }
  }

  /** While the manager is in its `Run`, nothing is cancelled and no step is left, `App.Run` is at its
      select. */
  lemma WaitingAtSelect(a: A.App, c: M.Config, s: State)
    requires A.Reachable(a, s.app) && M.SameKeys(c, s.manager) && s.app.manager.InRun? && !s.app.cancelled
    ensures CanMove(a, c, s) || (s.app.main.Select? && s.app.buffer.None?)
  {
    hide A.Reachable, CanMove, A.InvHooks, M.SameKeys;
    A.ReachableInv(a, s.app);
    if s.app.main.DeferredStop? {
      AppGivesMove(a, c, s, A.Caller(Deferred));
    }
  }

  lemma GoneWithoutError(a: A.App, c: M.Config, s: State)
    requires M.ValidConfig(c) && Inv(a, c, s) && s.app.manager.Gone? && s.app.main.Select? && s.app.buffer.None?
    ensures s.manager.result.ContextDone?
  {
    hide M.ValidConfig, M.Reachable, A.Reachable, A.InvCallers, A.InvHooks;
    A.ReachableInv(a, s.app);
    MI.ReachableInv(c, s.manager);
    hide MI.InvLaunched, MI.InvDrained, MI.InvReady, MI.InvWaitGroup, MI.InvErrors, MI.InvStopping;
  }

  /** No interleaving gets stuck before `App.Run` has returned, except where it waits for something
      from outside. */
  lemma StuckOnlyWaiting(a: A.App, c: M.Config, s: State)
    requires M.ValidConfig(c) && Inv(a, c, s) && !s.app.main.Finished?
    ensures M.SameKeys(c, s.manager) && (CanMove(a, c, s) || Waits(c, s))
  {
    hide M.ValidConfig, M.Reachable, A.Reachable, CanMove, MS.Waits, M.SameKeys, TiedErrors;
    match s.app.manager {
      case InRun =>
        InRunMoves(a, c, s);
        if MS.Waits(c, s.manager) {
          ContextIsNotDone(c, s);
          WaitingAtSelect(a, c, s);
        }
      case Gone =>
        GoneMoves(a, c, s);
        if s.app.main.Select? && s.app.buffer.None? { GoneWithoutError(a, c, s); }
      case _ => OthersMove(a, c, s);
    }
  }

  lemma ContextIsNotDone(c: M.Config, s: State)
    requires TiedPlaces(s) && MS.Waits(c, s.manager)
    ensures !s.app.cancelled
  {
  }

  // ---------------------------------------------------------------- every run

  /** However all goroutines interleave, the whole system takes a bounded number of steps beyond those
      of the environment; where none is left, `App.Run` has returned or waits for something from
      outside. After cancellation it has returned, and when it has, the manager's `Run` has
      too and no service goroutine is left. */
  lemma ShutdownTerminates(a: A.App, c: M.Config, s: State, acts: seq<Action>, t: State)
    requires M.ValidConfig(c) && Reachable(a, c, s) && Runs(a, c, s, acts, t)
    ensures Count(acts, BySystem) <= Supply(a, c, s) + 4 * Count(acts, IsNewCaller)
    ensures M.SameKeys(c, t.manager) && (CanMove(a, c, t) || t.app.main.Finished? || Waits(c, t))
    ensures s.app.cancelled ==> CanMove(a, c, t) || t.app.main.Finished?
    ensures t.app.main.Finished? ==> t.manager.main.Finished? && NoServiceLive(t.manager)
  {
    hide M.ValidConfig, Reachable, Runs, Supply, CanMove, NoServiceLive, MS.Waits, M.Reachable, A.Reachable, Tied,
         M.SameKeys;
    ReachableInv(a, c, s);
    SupplyBoundsRun(a, c, s, acts, t);
    SupplyIsNatural(a, c, t);
    if t.app.main.Finished? {
      A.HooksRunInOrder(a, t.app);
      GoneLeavesNoService(a, c, t);
    } else {
      StuckOnlyWaiting(a, c, t);
    }
  }

  // ---------------------------------------------------------------- errors

  /** The error that `App.Run` returns is the first failure that a service reported, unless there
      was no service to run or no order to run them in. */
  lemma AppReturnsFirstFailure(a: A.App, c: M.Config, s: State)
    requires M.ValidConfig(c) && Reachable(a, c, s) && s.app.result.ManagerFailed?
    ensures match s.manager.result
            case ServiceFailed(failure) =>
              s.manager.errCh.reported != [] && failure == s.manager.errCh.reported[0]
              && s.app.result.error == failure.error
              && failure.service in c.traits && !c.traits[failure.service].allowedFailure
            case NoEnabledServices => |c.traits| == 0
            case OrderFailed => c.cyclic
            case _ => false
  {
    hide M.ValidConfig, Reachable, M.Reachable, A.Reachable, TiedPlaces;
    ReachableInv(a, c, s);
    MT.FirstFailureWins(c, s.manager);
    MT.RunLeavesNothingBehind(c, s.manager);
  }

  lemma ResultStays(c: M.Config, s: M.State, x: M.Action)
    requires M.SameKeys(c, s) && MI.Inv(c, s) && !s.result.Running? && M.Step(c, s, x).To?
    ensures M.Step(c, s, x).state.result == s.result
  {
    hide M.SameKeys, M.MainStep, M.ServiceStep, M.CallerStep, M.BodyStep, M.StopStep, M.JoinStep, MI.Inv;
    ManagerStepKeeps(c, s, x);
    if x.Main? { MainKeepsResult(c, s, x.preferContext); }
  }

  lemma MainKeepsResult(c: M.Config, s: M.State, p: bool)
    requires MI.Inv(c, s) && !s.result.Running? && M.MainStep(c, s, p).To?
    ensures M.MainStep(c, s, p).state.result == s.result
  {
    hide MI.InvLaunched, MI.InvDrained, MI.InvReady, MI.InvWaitGroup, MI.InvErrors, MI.InvStopping, M.StartStep,
         M.RunStep;
    ReturningKeepsResult(c, s, p);
  }

  lemma ReturningKeepsResult(c: M.Config, s: M.State, p: bool)
    requires MI.AfterSelect(s.main) && M.RunStep(c, s, p).To?
    ensures M.RunStep(c, s, p).state.result == s.result
  {
  }

  lemma {:induction false} ErrorStays(a: A.App, c: M.Config, s: State, acts: seq<Action>, t: State)
    requires M.ValidConfig(c) && Inv(a, c, s) && ErrorOf(s.manager.result).Some? && Runs(a, c, s, acts, t)
    ensures t.manager.result == s.manager.result
    decreases |acts|
  {
    hide M.ValidConfig, Inv, M.SameKeys, Step;
    if acts != [] {
      StepKeepsError(a, c, s, acts[0]);
      StepKeepsInv(a, c, s, acts[0]);
      ErrorStays(a, c, Step(a, c, s, acts[0]).state, acts[1..], t);
    }
  }

  lemma StepKeepsError(a: A.App, c: M.Config, s: State, act: Action)
    requires M.ValidConfig(c) && Inv(a, c, s) && ErrorOf(s.manager.result).Some? && Step(a, c, s, act).To?
    ensures Step(a, c, s, act).state.manager.result == s.manager.result
  {
    hide M.ValidConfig, M.Reachable, A.Reachable, Tied, M.SameKeys, MI.Inv, A.Step, M.Step;
    MI.ReachableInv(c, s.manager);
    if act.Manager? && ManagerMay(s, act.manager) { ResultStays(c, s.manager, act.manager); }
  }

  /** Once the manager's `Run` fails, so does the application: whatever goes on, it ends, with nothing
      from outside needed. */
  lemma FailureEndsApp(a: A.App, c: M.Config, s: State, acts: seq<Action>, t: State)
    requires M.ValidConfig(c) && Reachable(a, c, s) && ErrorOf(s.manager.result).Some? && Runs(a, c, s, acts, t)
    ensures M.SameKeys(c, t.manager) && (CanMove(a, c, t) || t.app.main.Finished?)
  {
    hide M.ValidConfig, Reachable, Runs, CanMove, Supply, Inv, M.SameKeys;
    ShutdownTerminates(a, c, s, acts, t);
    ReachableInv(a, c, s);
    ErrorStays(a, c, s, acts, t);
    RunKeepsInv(a, c, s, acts, t);
    if Waits(c, t) && t.app.manager.InRun? { WaitingIsRunning(a, c, t); }
  }

  lemma WaitingIsRunning(a: A.App, c: M.Config, s: State)
    requires M.ValidConfig(c) && Inv(a, c, s) && MS.Waits(c, s.manager)
    ensures s.manager.result.Running?
  {
    hide M.ValidConfig, M.Reachable, A.Reachable, Tied, M.SameKeys;
    MI.ReachableInv(c, s.manager);
    hide MI.InvLaunched, MI.InvDrained, MI.InvReady, MI.InvWaitGroup, MI.InvErrors, MI.InvStopping;
  }

  /** A failure is reported and the manager's `Run` is behind its start lock. */
  ghost predicate Failing(m: M.State) {
    m.errCh.reported != [] && MT.PastStart(m.main)
  }

  lemma MainKeepsPastStart(c: M.Config, s: M.State, p: bool)
    requires MT.PastStart(s.main) && M.MainStep(c, s, p).To?
    ensures MT.PastStart(M.MainStep(c, s, p).state.main)
  {
    MS.RunGoes(c, s, p);
    hide M.RunStep, M.StartStep;
  }

  lemma StepKeepsFailing(a: A.App, c: M.Config, s: State, act: Action)
    requires M.SameKeys(c, s.manager) && Failing(s.manager) && Step(a, c, s, act).To?
    ensures Failing(Step(a, c, s, act).state.manager)
  {
    hide A.Step, M.MainStep, M.ServiceStep, M.CallerStep, M.BodyStep, M.StopStep, M.JoinStep, MT.PastStart;
    if act.Manager? && ManagerMay(s, act.manager) {
      MF.StepGrows(c, s.manager, act.manager);
      ManagerStepKeeps(c, s.manager, act.manager);
      if act.manager.Main? { MainKeepsPastStart(c, s.manager, act.manager.preferContext); }
    }
  }

  lemma {:induction false} FailingStays(a: A.App, c: M.Config, s: State, acts: seq<Action>, t: State)
    requires Runs(a, c, s, acts, t) && Failing(s.manager)
    ensures Failing(t.manager)
    decreases |acts|
  {
    hide M.SameKeys, Step, Failing;
    if acts != [] {
      StepKeepsFailing(a, c, s, acts[0]);
      FailingStays(a, c, Step(a, c, s, acts[0]).state, acts[1..], t);
    }
  }

  /** A failure reported after the start stops everything: `App.Run` returns, and nothing from outside
      is needed, unless somebody else has stopped the manager and its `Run` returned nil for that. */
  lemma FirstFailureStopsEverything(a: A.App, c: M.Config, s: State, acts: seq<Action>, t: State)
    requires M.ValidConfig(c) && Reachable(a, c, s) && Failing(s.manager) && Runs(a, c, s, acts, t)
    ensures M.SameKeys(c, t.manager)
    ensures CanMove(a, c, t) || t.app.main.Finished? || t.manager.result.ContextDone?
  {
    hide M.ValidConfig, Reachable, Runs, CanMove, Supply, Inv, M.SameKeys;
    ShutdownTerminates(a, c, s, acts, t);
    FailingStays(a, c, s, acts, t);
  }
}

/** The application and its service manager as one system: the goroutine that `App.Run` launches takes
    the steps of `ServiceManager.Run`, the once-body of `App.Stop` calls `ServiceManager.Stop` and
    waits for it, and the manager's context is derived from the application's. */
module JointProtocol {
  import opened Common
  import opened StopCallers
  import A = AppProtocol
  import M = ManagerProtocol
  import MI = ManagerInvariant
  import MF = ManagerFailure
  import Shutdown = AppShutdown

  datatype State = State(app: A.State, manager: M.State)

  datatype Action = App(app: A.Action) | Manager(manager: M.Action)

  datatype Move = Blocked | To(state: State)

  /** The once-body of `App.Stop`, as a caller of the manager's `Stop`. */
  const BODY: CallerId := External(0)

  /** What the manager's `Run` returns; nil once its context is done. */
  function ErrorOf(result: M.RunResult): Option<Error> {
    match result
    case Running | ContextDone => None
    case NoEnabledServices => Some(Error("no enabled services"))
    case OrderFailed => Some(Error("failed to resolve service order"))
    case ServiceFailed(failure) => Some(failure.error)
  }

  predicate StopsManager(app: A.State) {
    app.once.Claimed? && app.once.body.StopManager?
  }

  predicate BodyIsBack(manager: M.State) {
    BODY in manager.stopping.callers && manager.stopping.callers[BODY] == Returned
  }

  /** The once-body goes on when the manager's `Stop` has returned to it, and the goroutine when the
      manager's `Run` has, with that result. */
  predicate AppMay(s: State, x: A.Action) {
    && (x.Body? && StopsManager(s.app) ==> BodyIsBack(s.manager))
    && (x.Manager? && s.app.manager.InRun? ==> s.manager.main.Finished? && x.error == ErrorOf(s.manager.result))
  }

  /** Cancelling the application's context cancels the one derived from it. */
  function UnderContext(app: A.State, manager: M.State): State {
    State(app, if app.cancelled then manager.(cancelled := true) else manager)
  }

  function EnterStop(manager: M.State): M.State {
    manager.(stopping := M.SetCaller(manager.stopping, BODY, Entered))
  }

  function AppStep(a: A.App, s: State, x: A.Action): Move {
    if x.Body? && StopsManager(s.app) && BODY !in s.manager.stopping.callers then
      To(s.(manager := EnterStop(s.manager)))
    else if !AppMay(s, x) then Blocked
    else
      var next := A.Step(a, s.app, x);
      if next.To? then To(UnderContext(next.state, s.manager)) else Blocked
  }

  /** `Run` moves only in its goroutine; the context and the once-body are the application's. */
  predicate ManagerMay(s: State, x: M.Action) {
    (x.Main? ==> s.app.manager.InRun?) && !x.CancelParent? && x != M.CallStop(0)
  }

  function ManagerStep(c: M.Config, s: State, x: M.Action): Move
    requires M.SameKeys(c, s.manager)
  {
    if !ManagerMay(s, x) then Blocked
    else
      var next := M.Step(c, s.manager, x);
      if next.To? then To(s.(manager := next.state)) else Blocked
  }

  function Step(a: A.App, c: M.Config, s: State, act: Action): Move
    requires M.SameKeys(c, s.manager)
  {
    match act
    case App(x) => AppStep(a, s, x)
    case Manager(x) => ManagerStep(c, s, x)
  }

  ghost predicate Runs(a: A.App, c: M.Config, s: State, acts: seq<Action>, t: State)
    decreases |acts|
  {
    M.SameKeys(c, s.manager) &&
    if acts == [] then s == t
    else var next := Step(a, c, s, acts[0]); next.To? && Runs(a, c, next.state, acts[1..], t)
  }

  function Init(c: M.Config): State {
    State(A.Init(), M.Init(c))
  }

  ghost predicate Reachable(a: A.App, c: M.Config, s: State) {
    exists acts :: Runs(a, c, Init(c), acts, s)
  }

  // ---------------------------------------------------------------- each side is a run of its own

  /** Each side is in a state that its own protocol reaches. */
  ghost predicate BothReachable(a: A.App, c: M.Config, s: State) {
    A.Reachable(a, s.app) && M.Reachable(c, s.manager)
  }

  lemma AppReachesNext(a: A.App, s: A.State, x: A.Action)
    requires A.Reachable(a, s) && A.Step(a, s, x).To?
    ensures A.Reachable(a, A.Step(a, s, x).state)
  {
    hide A.Step;
    var t := A.Step(a, s, x).state;
    assert A.Runs(a, t, [], t);
    assert [x][1..] == [];
    assert A.Runs(a, s, [x], t);
    hide A.Runs, A.Reachable;
    Shutdown.StaysReachable(a, s, [x], t);
  }

  lemma CancelledIsReachable(c: M.Config, s: M.State)
    requires M.ValidConfig(c) && M.Reachable(c, s)
    ensures M.Reachable(c, s.(cancelled := true))
  {
    hide M.Reachable, M.ValidConfig;
    MI.ReachableInv(c, s);
    MF.InvHasKeys(c, s);
    hide MI.Inv;
    MF.ReachesNext(c, s, M.CancelParent);
  }

  lemma EnteredIsReachable(c: M.Config, s: M.State)
    requires M.ValidConfig(c) && M.Reachable(c, s) && BODY !in s.stopping.callers
    ensures M.Reachable(c, EnterStop(s))
  {
    hide M.Reachable, M.ValidConfig;
    MI.ReachableInv(c, s);
    MF.InvHasKeys(c, s);
    hide MI.Inv;
    MF.ReachesNext(c, s, M.CallStop(0));
  }

  lemma StepKeepsBoth(a: A.App, c: M.Config, s: State, act: Action)
    requires M.ValidConfig(c) && BothReachable(a, c, s) && M.SameKeys(c, s.manager) && Step(a, c, s, act).To?
    ensures BothReachable(a, c, Step(a, c, s, act).state)
    ensures M.SameKeys(c, Step(a, c, s, act).state.manager)
  {
    hide A.Reachable, M.Reachable, M.ValidConfig, A.Step, M.Step, M.SameKeys, AppMay, ManagerMay, EnterStop;
    match act {
      case App(x) =>
        if x.Body? && StopsManager(s.app) && BODY !in s.manager.stopping.callers {
          EnteredIsReachable(c, s.manager);
        } else {
          AppReachesNext(a, s.app, x);
          CancelledIsReachable(c, s.manager);
        }
      case Manager(x) => MF.ReachesNext(c, s.manager, x);
    }
    hide AppStep, ManagerStep;
    MI.ReachableInv(c, Step(a, c, s, act).state.manager);
    MF.InvHasKeys(c, Step(a, c, s, act).state.manager);
  }

  // ---------------------------------------------------------------- how they are tied

  predicate PastManager(app: A.State) {
    app.once.Over? || (app.once.Claimed? && !app.once.body.StopManager?)
  }

  /** Where the application's goroutine, once-body and context are, and where that leaves the manager. */
  ghost predicate TiedPlaces(s: State) {
    && (s.app.manager.NotLaunched? ==> s.manager.main.SetCancel?)
    && (s.app.manager.Sending? || s.app.manager.Leaving? || s.app.manager.Gone? ==> s.manager.main.Finished?)
    && (s.app.cancelled ==> s.manager.cancelled)
    && (PastManager(s.app) ==> BodyIsBack(s.manager))
  }

  /** The error on its way from the manager's `Run` to what `App.Run` returns. */
  ghost predicate TiedErrors(s: State) {
    var error := ErrorOf(s.manager.result);
    && (s.app.manager.Sending? ==> error == Some(s.app.manager.error))
    && (s.app.buffer.Some? ==> error == s.app.buffer && s.manager.main.Finished?)
    && ((s.app.manager.Leaving? || s.app.manager.Gone?) && s.app.result.Pending? ==> s.app.buffer == error)
    && (s.app.result.ManagerFailed? ==> error == Some(s.app.result.error) && s.manager.main.Finished?)
  }

  ghost predicate Tied(s: State) {
    TiedPlaces(s) && TiedErrors(s)
  }

  lemma AppStepKeepsPlaces(a: A.App, s: State, x: A.Action)
    requires A.Inv(a, s.app) && TiedPlaces(s) && AppStep(a, s, x).To?
    ensures TiedPlaces(AppStep(a, s, x).state)
  {
    hide A.InvCallers, A.InvHooks;
  }

  lemma AppStepKeepsErrors(a: A.App, s: State, x: A.Action)
    requires A.Inv(a, s.app) && Tied(s) && AppStep(a, s, x).To?
    ensures TiedErrors(AppStep(a, s, x).state)
  {
    hide A.InvCallers, A.InvHooks, ErrorOf, StopsManager, PastManager, BodyIsBack, A.CallerStep, A.BodyStep;
    match x {
      case Main(_) =>
      case Manager(_) =>
      case Caller(id) => CallerLeavesErrors(s.app, id);
      case Body => if A.BodyStep(a, s.app).To? { BodyLeavesErrors(a, s.app); }
      case _ =>
    }
  }

  lemma CallerLeavesErrors(s: A.State, id: CallerId)
    requires A.CallerStep(s, id).To?
    ensures var t := A.CallerStep(s, id).state;
            t.manager == s.manager && t.buffer == s.buffer && t.result == s.result
  {
  }

  lemma BodyLeavesErrors(a: A.App, s: A.State)
    requires A.BodyStep(a, s).To?
    ensures var t := A.BodyStep(a, s).state;
            t.manager == s.manager && t.buffer == s.buffer && t.result == s.result
  {
  }

  /** What the application sees of the manager changes only in its `Run`. */
  ghost predicate Seen(s: M.State, t: M.State, inRun: bool) {
    && (s.cancelled ==> t.cancelled) && (BodyIsBack(s) ==> BodyIsBack(t))
    && (BODY in s.stopping.callers ==> BODY in t.stopping.callers)
    && (!inRun ==> t.main == s.main && t.result == s.result)
  }

  lemma MainStepKeeps(c: M.Config, s: M.State, p: bool)
    requires M.MainStep(c, s, p).To?
    ensures Seen(s, M.MainStep(c, s, p).state, true)
  {
    MF.MainGrows(c, s, p);
    if M.InStart(s.main) { MF.StartLeavesRest(c, s, p); } else { MI.RunLeavesOrMoves(c, s, p); }
    hide M.StartStep, M.RunStep;
  }

  lemma CallerStepKeeps(s: M.State, id: CallerId)
    requires M.CallerStep(s, id).To?
    ensures Seen(s, M.CallerStep(s, id).state, false)
  {
    CallerChangesOne(s, id);
    hide M.CallerStep;
  }

  lemma CallerChangesOne(s: M.State, id: CallerId)
    requires M.CallerStep(s, id).To?
    ensures id in s.stopping.callers && s.stopping.callers[id] != Returned
    ensures var t := M.CallerStep(s, id).state;
            && t.main == s.main && t.result == s.result && (s.cancelled ==> t.cancelled)
            && id in t.stopping.callers
            && t.stopping.callers == s.stopping.callers[id := t.stopping.callers[id]]
  {
  }

  lemma CallersKept(s: M.State, t: M.State)
    requires t.main == s.main && t.result == s.result && (s.cancelled ==> t.cancelled)
    requires t.stopping.callers == s.stopping.callers
    ensures Seen(s, t, false)
  {
  }

  lemma EnvironmentStepKeeps(c: M.Config, s: M.State, x: M.Action)
    requires M.SameKeys(c, s) && M.ByEnvironment(x) && M.Step(c, s, x).To?
    ensures Seen(s, M.Step(c, s, x).state, false)
  {
  }

  lemma ManagerStepKeeps(c: M.Config, s: M.State, x: M.Action)
    requires M.SameKeys(c, s) && M.Step(c, s, x).To?
    ensures Seen(s, M.Step(c, s, x).state, x.Main?)
  {
    hide M.SameKeys, M.MainStep, M.ServiceStep, M.CallerStep, M.BodyStep, M.StopStep, M.JoinStep, Seen;
    var t := M.Step(c, s, x).state;
    match x {
      case Main(p) => MainStepKeeps(c, s, p);
      case Service(n, outcome, contextFirst) => MF.ServiceGrows(c, s, n, outcome, contextFirst); CallersKept(s, t);
      case Caller(id) => CallerStepKeeps(s, id);
      case Body => MI.BodyMoves(s); CallersKept(s, t);
      case StopGoroutine(n) => MF.StopsLeaveCallers(s.stopping, n); CallersKept(s, t);
      case StopJoined(n, _) => MF.StopsLeaveCallers(s.stopping, n); CallersKept(s, t);
      case _ => EnvironmentStepKeeps(c, s, x);
    }
  }

  lemma ManagerStepKeepsTied(c: M.Config, s: State, x: M.Action)
    requires M.SameKeys(c, s.manager) && Tied(s) && ManagerStep(c, s, x).To?
    ensures Tied(ManagerStep(c, s, x).state)
  {
    hide ErrorOf;
    ManagerStepKeeps(c, s.manager, x);
    if x.Main? { assert s.manager.main.Finished? ==> M.MainStep(c, s.manager, x.preferContext).Blocked?; }
    hide M.Step, M.MainStep, BodyIsBack;
  }

  lemma StepKeepsTied(a: A.App, c: M.Config, s: State, act: Action)
    requires A.Inv(a, s.app) && M.SameKeys(c, s.manager) && Tied(s) && Step(a, c, s, act).To?
    ensures Tied(Step(a, c, s, act).state)
  {
    hide A.InvCallers, A.InvHooks, Tied, AppStep, ManagerStep;
    match act {
      case App(x) => AppStepKeepsTied(a, s, x);
      case Manager(x) => ManagerStepKeepsTied(c, s, x);
    }
  }

  lemma AppStepKeepsTied(a: A.App, s: State, x: A.Action)
    requires A.Inv(a, s.app) && Tied(s) && AppStep(a, s, x).To?
    ensures Tied(AppStep(a, s, x).state)
  {
    hide A.Inv, TiedPlaces, TiedErrors, AppStep;
    AppStepKeepsPlaces(a, s, x);
    AppStepKeepsErrors(a, s, x);
  }

  /** What every step of the whole system keeps. */
  ghost predicate Inv(a: A.App, c: M.Config, s: State) {
    BothReachable(a, c, s) && M.SameKeys(c, s.manager) && Tied(s)
  }

  lemma StepKeepsInv(a: A.App, c: M.Config, s: State, act: Action)
    requires M.ValidConfig(c) && Inv(a, c, s) && Step(a, c, s, act).To?
    ensures Inv(a, c, Step(a, c, s, act).state)
  {
    hide M.ValidConfig, M.Reachable, A.Reachable, Tied, M.SameKeys, AppStep, ManagerStep, A.Inv;
    StepKeepsBoth(a, c, s, act);
    A.ReachableInv(a, s.app);
    StepKeepsTied(a, c, s, act);
  }

  lemma {:induction false} RunKeepsInv(a: A.App, c: M.Config, s: State, acts: seq<Action>, t: State)
    requires M.ValidConfig(c) && Inv(a, c, s) && Runs(a, c, s, acts, t)
    ensures Inv(a, c, t)
    decreases |acts|
  {
    hide M.ValidConfig, Inv, Step, M.SameKeys;
    if acts != [] {
      StepKeepsInv(a, c, s, acts[0]);
      RunKeepsInv(a, c, Step(a, c, s, acts[0]).state, acts[1..], t);
    }
  }

  lemma InitInv(a: A.App, c: M.Config)
    ensures Inv(a, c, Init(c))
  {
    MF.StartIsReachable(c);
    assert A.Runs(a, A.Init(), [], A.Init());
    hide M.Reachable;
  }

  /** In every state that the whole system reaches, each side is in one that its own protocol reaches,
      so what is proved of it holds, and the two are tied. */
  lemma ReachableInv(a: A.App, c: M.Config, s: State)
    requires M.ValidConfig(c) && Reachable(a, c, s)
    ensures Inv(a, c, s)
  {
    var acts :| Runs(a, c, Init(c), acts, s);
    hide M.ValidConfig, Inv, Runs, Reachable;
    InitInv(a, c);
    RunKeepsInv(a, c, Init(c), acts, s);
  }
}

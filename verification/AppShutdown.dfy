/** The application comes to an end: every step of `Run`, its manager goroutine, the `Stop` callers
    and the once-body uses up a bounded supply. */
module AppShutdown {
  import opened Common
  import opened AppProtocol
  import opened StopCallers

  function MainRank(a: App, main: MainPc): int {
    match main
    case SetCancel => 20 + a.preRun
    case PreRun(i) => 19 + a.preRun - i
    case LaunchManager => 18
    case Select => 17
    case DeferredStop => 4
    case AwaitManager => 3
    case CloseErrCh => 2
    case Finished => 1
  }

  function ManagerRank(manager: ManagerPc): nat {
    match manager
    case NotLaunched => 4
    case InRun => 3
    case Sending(_) => 2
    case Leaving => 1
    case Gone => 0
  }

  function OnceRank(a: App, once: Once): int {
    match once
    case Fresh => 4 + a.postStop
    case Claimed(_, StopManager) => 3 + a.postStop
    case Claimed(_, WaitManager) => 2 + a.postStop
    case Claimed(_, PostStop(i)) => 1 + a.postStop - i
    case Over => 0
  }

  ghost function Supply(a: App, s: State): int {
    MainRank(a, s.main) + ManagerRank(s.manager) + OnceRank(a, s.once) + CallerSupply(s.callers)
  }

  lemma SupplyIsNatural(a: App, s: State)
    requires Inv(a, s)
    ensures Supply(a, s) >= 0
  {
    hide InvManager, InvCallers, CallerSupply;
    assert MainRank(a, s.main) >= 0 && OnceRank(a, s.once) >= 0;
    hide MainRank, OnceRank, InvHooks;
  }

  lemma MainUses(a: App, s: State, p: bool)
    requires Inv(a, s) && MainStep(a, s, p).To?
    ensures Supply(a, MainStep(a, s, p).state) < Supply(a, s)
  {
    hide InvCallers, CallerSupply, OnceRank;
    CallerSupplyMoved(s.callers, Deferred, Entered);
  }

  lemma ManagerUses(a: App, s: State, error: Option<Error>)
    requires Inv(a, s) && ManagerStep(s, error).To?
    ensures Supply(a, ManagerStep(s, error).state) < Supply(a, s)
  {
    hide InvCallers, InvHooks, CallerSupply, OnceRank, MainRank;
  }

  lemma CallerUses(a: App, s: State, id: CallerId)
    requires CallerStep(s, id).To?
    ensures Supply(a, CallerStep(s, id).state) < Supply(a, s)
  {
    hide CallerSupply, MainRank, ManagerRank;
    CallerSupplyMoved(s.callers, id, CallerStep(s, id).state.callers[id]);
  }

  lemma BodyUses(a: App, s: State)
    requires Inv(a, s) && BodyStep(a, s).To?
    ensures Supply(a, BodyStep(a, s).state) < Supply(a, s)
  {
    hide InvManager, InvCallers, CallerSupply, MainRank, ManagerRank;
    assert s.once.body.PostStop? ==> s.once.body.i == PostHooksDone(a, s.once);
  }

  predicate ByEnvironment(act: Action) {
    act.CancelParent? || act.CallStop?
  }

  predicate BySystem(act: Action) {
    !ByEnvironment(act)
  }

  predicate IsNewCaller(act: Action) {
    act.CallStop?
  }

  lemma StepUses(a: App, s: State, act: Action)
    requires Inv(a, s) && Step(a, s, act).To? && !ByEnvironment(act)
    ensures Supply(a, Step(a, s, act).state) < Supply(a, s)
  {
    hide Inv, Supply, MainStep, ManagerStep, CallerStep, BodyStep;
    match act {
      case Main(p) => MainUses(a, s, p);
      case Manager(error) => ManagerUses(a, s, error);
      case Caller(id) => CallerUses(a, s, id);
      case Body => BodyUses(a, s);
    }
  }

  lemma EnvironmentSupplies(a: App, s: State, act: Action)
    requires Step(a, s, act).To? && ByEnvironment(act)
    ensures Supply(a, Step(a, s, act).state) == Supply(a, s) + if act.CallStop? then 4 else 0
  {
    hide CallerSupply, MainRank, ManagerRank, OnceRank;
    if act.CallStop? { CallerSupplyMoved(s.callers, External(act.id), Entered); }
  }

  lemma {:induction false} SupplyBoundsRun(a: App, s: State, acts: seq<Action>, t: State)
    requires Inv(a, s) && Runs(a, s, acts, t)
    ensures Inv(a, t) && Count(acts, BySystem) + Supply(a, t) <= Supply(a, s) + 4 * Count(acts, IsNewCaller)
    decreases |acts|
  {
    hide Inv, Supply, Step;
    if acts != [] {
      StepKeepsInv(a, s, acts[0]);
      if ByEnvironment(acts[0]) { EnvironmentSupplies(a, s, acts[0]); } else { StepUses(a, s, acts[0]); }
      SupplyBoundsRun(a, Step(a, s, acts[0]).state, acts[1..], t);
    }
  }

  lemma StaysReachable(a: App, s: State, acts: seq<Action>, t: State)
    requires Reachable(a, s) && Runs(a, s, acts, t)
    ensures Reachable(a, t)
  {
    var before :| Runs(a, Init(), before, s);
    RunsOn(a, Init(), before, s, acts, t);
  }

  lemma {:induction false} RunsOn(a: App, s: State, acts: seq<Action>, t: State, more: seq<Action>, u: State)
    requires Runs(a, s, acts, t) && Runs(a, t, more, u)
    ensures Runs(a, s, acts + more, u)
    decreases |acts|
  {
    hide Step;
    if acts == [] {
      assert [] + more == more;
    } else {
      RunsOn(a, Step(a, s, acts[0]).state, acts[1..], t, more, u);
      assert (acts + more)[1..] == acts[1..] + more;
    }
  }

  /** However the goroutines interleave, a run takes a bounded number of steps beyond those of
      the environment, and after cancellation one that cannot go on has returned from `Run`. */
  lemma ShutdownTerminates(a: App, s: State, acts: seq<Action>, t: State)
    requires Reachable(a, s) && Runs(a, s, acts, t)
    ensures Count(acts, BySystem) <= Supply(a, s) + 4 * Count(acts, IsNewCaller)
    ensures t.cancelled && !t.main.Finished? ==> exists act: Action :: !ByEnvironment(act) && Step(a, t, act).To?
  {
    ReachableInv(a, s);
    StaysReachable(a, s, acts, t);
    hide Inv, Reachable, Runs, Supply, Step;
    SupplyBoundsRun(a, s, acts, t);
    SupplyIsNatural(a, t);
    if t.cancelled && !t.main.Finished? { ShutdownNeverStuck(a, t); }
  }
}

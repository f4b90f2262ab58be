/** The application around the service manager: `Run`, the goroutine it launches for the
    manager, and any number of `Stop` callers, as a step relation. */
module AppProtocol {
  import opened Common
  import opened StopCallers

  /** Where `Run` is; `i` counts the pre-run hooks done. */
  datatype MainPc = SetCancel | PreRun(i: nat) | LaunchManager | Select | DeferredStop | AwaitManager | CloseErrCh
    | Finished

  /** The goroutine that runs the service manager and may send its error. */
  datatype ManagerPc = NotLaunched | InRun | Sending(error: Error) | Leaving | Gone

  /** The once-body of `Stop`; `i` counts the post-stop hooks done. */
  datatype BodyPc = StopManager | WaitManager | PostStop(i: nat)
  datatype Once = Fresh | Claimed(owner: CallerId, body: BodyPc) | Over

  datatype RunResult = Pending | ContextDone | ManagerFailed(error: Error)

  /** A post-stop hook that ran, and whether the manager's goroutine had gone by then. */
  datatype HookRun = HookRun(index: nat, managerGone: bool)

  datatype App = App(preRun: nat, postStop: nat)

  datatype State = State(
    main: MainPc, result: RunResult, manager: ManagerPc, wg: nat,
    buffer: Option<Error>, closed: bool, panicked: bool,
    cancelSet: bool, cancelled: bool,
    callers: map<CallerId, CallerPc>, once: Once, preHooks: seq<nat>, postHooks: seq<HookRun>)

  datatype Action =
    | CancelParent
    | CallStop(id: nat)
    | Main(preferContext: bool)
    | Manager(error: Option<Error>)
    | Caller(caller: CallerId)
    | Body

  datatype Move = Blocked | To(state: State)

  function Init(): State {
    State(SetCancel, Pending, NotLaunched, 0, None, false, false, false, false, map[], Fresh, [], [])
  }

  function Leave(s: State, result: RunResult): State {
    s.(main := DeferredStop, result := result, callers := s.callers[Deferred := Entered])
  }

  function MainStep(a: App, s: State, preferContext: bool): Move {
    match s.main
    case SetCancel => To(s.(main := PreRun(0), cancelSet := true))
    case PreRun(i) =>
      if i < a.preRun then To(s.(main := PreRun(i + 1), preHooks := s.preHooks + [i]))
      else To(s.(main := LaunchManager))
    case LaunchManager => To(s.(main := Select, manager := InRun, wg := s.wg + 1))
    case Select =>
      if s.cancelled && preferContext then To(Leave(s, ContextDone))
      else if s.buffer.Some? then To(Leave(s.(buffer := None), ManagerFailed(s.buffer.value)))
      else Blocked
    case DeferredStop =>
      if Deferred in s.callers && s.callers[Deferred] == Returned then To(s.(main := AwaitManager)) else Blocked
    case AwaitManager => if s.wg == 0 then To(s.(main := CloseErrCh)) else Blocked
    case CloseErrCh => To(s.(main := Finished, closed := true))
    case Finished => Blocked
  }

  /** The manager's `Run` returns `error` or nil; a non-nil error is sent with a plain send. */
  function ManagerStep(s: State, error: Option<Error>): Move {
    match s.manager
    case NotLaunched => Blocked
    case InRun => To(s.(manager := if error.Some? then Sending(error.value) else Leaving))
    case Sending(e) =>
      if s.closed then To(s.(panicked := true))
      else if s.buffer.Some? then Blocked
      else To(s.(manager := Leaving, buffer := Some(e)))
    case Leaving => if s.wg == 0 then Blocked else To(s.(manager := Gone, wg := s.wg - 1))
    case Gone => Blocked
  }

  function CallerStep(s: State, id: CallerId): Move {
    if id !in s.callers then Blocked
    else match s.callers[id]
      case Entered => To(s.(callers := s.callers[id := AtOnce], cancelled := s.cancelled || s.cancelSet))
      case AtOnce =>
        (match s.once
         case Fresh => To(s.(callers := s.callers[id := InBody], once := Claimed(id, StopManager)))
         case Claimed(_, _) => Blocked
         case Over => To(s.(callers := s.callers[id := Returned])))
      case InBody => if s.once.Over? then To(s.(callers := s.callers[id := Returned])) else Blocked
      case Returned => Blocked
  }

  function BodyStep(a: App, s: State): Move {
    if !s.once.Claimed? then Blocked
    else match s.once.body
      case StopManager => To(s.(once := Claimed(s.once.owner, WaitManager)))
      case WaitManager => if s.wg == 0 then To(s.(once := Claimed(s.once.owner, PostStop(0)))) else Blocked
      case PostStop(i) =>
        if i < a.postStop then
          To(s.(once := Claimed(s.once.owner, PostStop(i + 1)),
                postHooks := s.postHooks + [HookRun(i, s.manager == Gone)]))
        else To(s.(once := Over))
  }

  function Step(a: App, s: State, act: Action): Move {
    match act
    case CancelParent => To(s.(cancelled := true))
    case CallStop(id) =>
      if External(id) in s.callers then Blocked
      else To(s.(callers := s.callers[External(id) := Entered]))
    case Main(preferContext) => MainStep(a, s, preferContext)
    case Manager(error) => ManagerStep(s, error)
    case Caller(id) => CallerStep(s, id)
    case Body => BodyStep(a, s)
  }

  ghost predicate Runs(a: App, s: State, acts: seq<Action>, t: State)
    decreases |acts|
  {
    if acts == [] then s == t
    else var next := Step(a, s, acts[0]); next.To? && Runs(a, next.state, acts[1..], t)
  }

  ghost predicate Reachable(a: App, s: State) {
    exists acts :: Runs(a, Init(), acts, s)
  }

  // ---------------------------------------------------------------- what every step keeps

  predicate AfterSelect(pc: MainPc) {
    pc.DeferredStop? || pc.AwaitManager? || pc.CloseErrCh? || pc.Finished?
  }

  predicate Launched(pc: MainPc) {
    pc.Select? || AfterSelect(pc)
  }

  ghost predicate InvManager(s: State) {
    && (s.manager != NotLaunched <==> Launched(s.main))
    && s.wg == (if s.manager == NotLaunched || s.manager == Gone then 0 else 1)
    && (s.main.CloseErrCh? || s.main.Finished? ==> s.manager == Gone)
    && !s.panicked && (s.closed <==> s.main.Finished?)
    && (s.result.Pending? <==> !AfterSelect(s.main))
    && (s.manager == NotLaunched || s.manager.InRun? || s.manager.Sending?
        ==> s.buffer.None? && !s.result.ManagerFailed?)
    && (s.cancelSet <==> !s.main.SetCancel?)
  }

  ghost predicate InvCallers(s: State) {
    && (Deferred in s.callers <==> AfterSelect(s.main))
    && (Deferred in s.callers && s.callers[Deferred] != Entered ==> s.cancelled)
    && (s.main.AwaitManager? || s.main.CloseErrCh? || s.main.Finished? ==> s.callers[Deferred] == Returned)
    && (forall id {:trigger s.callers[id]} :: id in s.callers && s.callers[id] == Returned ==> s.once.Over?)
    && (forall id {:trigger s.callers[id]} :: id in s.callers && s.callers[id] == InBody ==> !s.once.Fresh?)
    && (s.once.Claimed? ==> s.once.owner in s.callers && s.callers[s.once.owner] == InBody)
  }

  function PostHooksDone(a: App, once: Once): nat {
    match once
    case Claimed(_, PostStop(i)) => i
    case Over => a.postStop
    case _ => 0
  }

  function PreHooksDone(a: App, main: MainPc): nat {
    match main
    case SetCancel => 0
    case PreRun(i) => i
    case _ => a.preRun
  }

  /** Hooks run once each, in registration order. */
  ghost predicate InvHooks(a: App, s: State) {
    && PreHooksDone(a, s.main) <= a.preRun && |s.preHooks| == PreHooksDone(a, s.main)
    && (forall i :: 0 <= i < |s.preHooks| ==> s.preHooks[i] == i)
    && PostHooksDone(a, s.once) <= a.postStop && |s.postHooks| == PostHooksDone(a, s.once)
    && (forall i :: 0 <= i < |s.postHooks| ==> s.postHooks[i].index == i)
  }

  ghost predicate Inv(a: App, s: State) {
    InvManager(s) && InvCallers(s) && InvHooks(a, s)
  }

  lemma MainKeepsInv(a: App, s: State, p: bool)
    requires Inv(a, s) && MainStep(a, s, p).To?
    ensures Inv(a, MainStep(a, s, p).state)
  {
    var t := MainStep(a, s, p).state;
    assert InvManager(t) by { hide InvCallers, InvHooks; }
    assert InvCallers(t) by { hide InvManager, InvHooks; }
    assert InvHooks(a, t) by { hide InvManager, InvCallers; }
    hide InvManager, InvCallers, InvHooks, MainStep;
  }

  lemma CallerKeepsInv(a: App, s: State, id: CallerId)
    requires Inv(a, s) && CallerStep(s, id).To?
    ensures Inv(a, CallerStep(s, id).state)
  {
    var t := CallerStep(s, id).state;
    assert InvManager(t) by { hide InvCallers, InvHooks; }
    assert InvCallers(t) by { hide InvHooks; }
    assert InvHooks(a, t) by { hide InvManager, InvCallers; }
    hide InvManager, InvCallers, InvHooks, CallerStep;
  }

  lemma ManagerKeepsInv(a: App, s: State, error: Option<Error>)
    requires Inv(a, s) && ManagerStep(s, error).To?
    ensures Inv(a, ManagerStep(s, error).state)
  {
    var t := ManagerStep(s, error).state;
    assert InvManager(t) by { hide InvCallers, InvHooks; }
    assert InvCallers(t) by { hide InvManager, InvHooks; }
    assert InvHooks(a, t) by { hide InvManager, InvCallers; }
    hide InvManager, InvCallers, InvHooks, ManagerStep;
  }

  lemma BodyKeepsInv(a: App, s: State)
    requires Inv(a, s) && BodyStep(a, s).To?
    ensures Inv(a, BodyStep(a, s).state)
  {
    var t := BodyStep(a, s).state;
    assert InvManager(t) by { hide InvCallers, InvHooks; }
    assert InvCallers(t) by { hide InvManager, InvHooks; }
    assert InvHooks(a, t) by { hide InvManager, InvCallers; }
    hide InvManager, InvCallers, InvHooks, BodyStep;
  }

  lemma StepKeepsInv(a: App, s: State, act: Action)
    requires Inv(a, s) && Step(a, s, act).To?
    ensures Inv(a, Step(a, s, act).state)
  {
    match act {
      case Main(p) => MainKeepsInv(a, s, p); hide Inv, MainStep;
      case Caller(id) => CallerKeepsInv(a, s, id); hide Inv, CallerStep;
      case Manager(error) => ManagerKeepsInv(a, s, error); hide Inv, ManagerStep;
      case Body => BodyKeepsInv(a, s); hide Inv, BodyStep;
      case _ =>
    }
  }

  lemma {:induction false} RunKeepsInv(a: App, s: State, acts: seq<Action>, t: State)
    requires Inv(a, s) && Runs(a, s, acts, t)
    ensures Inv(a, t)
    decreases |acts|
  {
    hide Inv, Step;
    if acts != [] {
      StepKeepsInv(a, s, acts[0]);
      RunKeepsInv(a, Step(a, s, acts[0]).state, acts[1..], t);
    }
  }

  lemma ReachableInv(a: App, s: State)
    requires Reachable(a, s)
    ensures Inv(a, s)
  {
    var acts :| Runs(a, Init(), acts, s);
    assert Inv(a, Init());
    RunKeepsInv(a, Init(), acts, s);
  }

  // ---------------------------------------------------------------- the theorems

  /** The channel is closed only once its one producer has gone; its send finds room and
      never meets a closed channel. */
  lemma SendIsSafe(a: App, s: State)
    requires Reachable(a, s)
    ensures !s.panicked && (s.closed ==> s.manager == Gone)
    ensures s.manager.Sending? ==>
      var next := ManagerStep(s, None); next.To? && !next.state.panicked && next.state.buffer == Some(s.manager.error)
  {
    ReachableInv(a, s);
  }

  /** Hooks run at most once each and in registration order; when `Run` has returned all of
      them have run, the manager's goroutine has gone and the once-body is over. */
  lemma HooksRunInOrder(a: App, s: State)
    requires Reachable(a, s)
    ensures |s.preHooks| <= a.preRun && forall i :: 0 <= i < |s.preHooks| ==> s.preHooks[i] == i
    ensures |s.postHooks| <= a.postStop && forall i :: 0 <= i < |s.postHooks| ==> s.postHooks[i].index == i
    ensures s.manager != NotLaunched ==> |s.preHooks| == a.preRun
    ensures s.main.Finished? ==> |s.postHooks| == a.postStop && s.manager == Gone && s.once.Over? && s.cancelled
  {
    ReachableInv(a, s);
  }

  /** No post-stop hook that ran has found the manager's goroutine still there. */
  predicate HooksFoundManagerGone(s: State) {
    forall h :: h in s.postHooks ==> h.managerGone
  }

  /** The once-body waits for the manager to have gone: then it stays gone. */
  ghost predicate WaitsForManager(s: State) {
    match s.once
    case Claimed(_, WaitManager) => s.postHooks == [] && s.manager != NotLaunched
    case Claimed(_, PostStop(_)) => s.manager == Gone && HooksFoundManagerGone(s)
    case Over => s.manager == Gone && HooksFoundManagerGone(s)
    case _ => false
  }

  lemma WaitIsKept(a: App, s: State, act: Action)
    requires Inv(a, s) && WaitsForManager(s) && Step(a, s, act).To?
    ensures WaitsForManager(Step(a, s, act).state)
  {
    hide InvCallers, InvHooks;
  }

  lemma {:induction false} WaitIsKeptInRuns(a: App, s: State, acts: seq<Action>, t: State)
    requires Inv(a, s) && WaitsForManager(s) && Runs(a, s, acts, t)
    ensures HooksFoundManagerGone(t)
    decreases |acts|
  {
    hide Inv, Step;
    if acts != [] {
      StepKeepsInv(a, s, acts[0]);
      WaitIsKept(a, s, acts[0]);
      WaitIsKeptInRuns(a, Step(a, s, acts[0]).state, acts[1..], t);
    }
  }

  /** Two steps of the once-body that meet no manager goroutine run the first hook. */
  lemma HookBeforeManager(a: App, s: State) returns (acts: seq<Action>, t: State)
    requires Inv(a, s) && s.once.Claimed? && s.once.body == WaitManager && s.manager == NotLaunched && a.postStop > 0
    ensures Runs(a, s, acts, t) && !HooksFoundManagerGone(t)
  {
    hide InvCallers;
    var m := BodyStep(a, s).state;
    t := BodyStep(a, m).state;
    acts := [Body, Body];
    assert acts[1..] == [Body] && acts[1..][1..] == [];
    assert Runs(a, t, [], t);
    assert Runs(a, m, [Body], t);
    assert t.postHooks[0] == HookRun(0, false) && t.postHooks[0] in t.postHooks;
  }

  /** Post-stop hooks are registered to run after all services stop. That holds in every
      continuation exactly when `Run` had launched the manager's goroutine by the time the
      once-body begins to wait for it. */
  lemma HooksFollowManagerIffLaunched(a: App, s: State)
    requires Reachable(a, s) && s.once.Claimed? && s.once.body == WaitManager && a.postStop > 0
    ensures (forall acts, t :: Runs(a, s, acts, t) ==> HooksFoundManagerGone(t)) <==> s.manager != NotLaunched
  {
    ReachableInv(a, s);
    if s.manager == NotLaunched {
      var acts, t := HookBeforeManager(a, s);
    } else {
      forall acts, t | Runs(a, s, acts, t)
        ensures HooksFoundManagerGone(t)
      {
        WaitIsKeptInRuns(a, s, acts, t);
      }
    }
  }

  /** That state is reached by a single early caller: `Stop` before `Run`, which cancels nothing. */
  lemma EarlyStopReachesIt(a: App) returns (s: State)
    ensures Reachable(a, s) && s.once == Claimed(External(0), WaitManager) && s.manager == NotLaunched && !s.cancelled
  {
    var acts := [CallStop(0), Caller(External(0)), Caller(External(0)), Body];
    var s1 := Step(a, Init(), acts[0]).state;
    var s2 := Step(a, s1, acts[1]).state;
    var s3 := Step(a, s2, acts[2]).state;
    s := Step(a, s3, acts[3]).state;
    assert Runs(a, s, [], s);
    assert Runs(a, s3, [acts[3]], s);
    assert acts[2..][1..] == [acts[3]];
    assert Runs(a, s2, acts[2..], s);
    assert acts[1..][1..] == acts[2..];
    assert Runs(a, s1, acts[1..], s);
    assert Runs(a, Init(), acts, s);
  }

  // ---------------------------------------------------------------- what `Run` returns

  /** A caller of `Stop` is about to cancel the context. */
  ghost predicate AboutToCancel(s: State) {
    exists id :: id in s.callers && s.callers[id] == Entered
  }

  /** `Run` has an error to take and nothing is cancelled or about to be, or it has taken it. */
  ghost predicate TakesError(s: State, e: Error) {
    || (s.main.Select? && s.buffer == Some(e) && !s.cancelled && !AboutToCancel(s))
    || (AfterSelect(s.main) && s.result == ManagerFailed(e))
  }

  lemma CallerKeepsTakes(s: State, id: CallerId, e: Error)
    requires TakesError(s, e) && CallerStep(s, id).To?
    ensures TakesError(CallerStep(s, id).state, e)
  {
    var t := CallerStep(s, id).state;
    if s.main.Select? {
      assert s.callers[id] != Entered;
      forall other | other in t.callers
        ensures t.callers[other] != Entered
      {
        assert other in s.callers && s.callers[other] != Entered;
      }
    }
  }

  lemma MainKeepsTakes(a: App, s: State, p: bool, e: Error)
    requires TakesError(s, e) && MainStep(a, s, p).To?
    ensures TakesError(MainStep(a, s, p).state, e)
  {
    hide AboutToCancel;
  }

  lemma ManagerKeepsTakes(s: State, error: Option<Error>, e: Error)
    requires TakesError(s, e) && ManagerStep(s, error).To?
    ensures TakesError(ManagerStep(s, error).state, e)
  {
  }

  lemma BodyKeepsTakes(a: App, s: State, e: Error)
    requires TakesError(s, e) && BodyStep(a, s).To?
    ensures TakesError(BodyStep(a, s).state, e)
  {
  }

  lemma StepKeepsTakes(a: App, s: State, act: Action, e: Error)
    requires TakesError(s, e) && !act.CancelParent? && !act.CallStop? && Step(a, s, act).To?
    ensures TakesError(Step(a, s, act).state, e)
  {
    hide TakesError, MainStep, ManagerStep, CallerStep, BodyStep;
    match act {
      case Main(p) => MainKeepsTakes(a, s, p, e);
      case Manager(error) => ManagerKeepsTakes(s, error, e);
      case Caller(id) => CallerKeepsTakes(s, id, e);
      case Body => BodyKeepsTakes(a, s, e);
    }
  }

  /** An error that waits for `Run` at its select is what `Run` returns, in every continuation in which
      nobody cancels. */
  lemma {:induction false} ErrorIsReturned(a: App, s: State, acts: seq<Action>, t: State, e: Error)
    requires TakesError(s, e) && Runs(a, s, acts, t)
    requires forall act :: act in acts ==> !act.CancelParent? && !act.CallStop?
    ensures TakesError(t, e)
    decreases |acts|
  {
    hide Step, TakesError;
    if acts != [] {
      assert acts[0] in acts;
      StepKeepsTakes(a, s, acts[0], e);
      ErrorIsReturned(a, Step(a, s, acts[0]).state, acts[1..], t, e);
    }
  }

  lemma NilStep(a: App, s: State, act: Action)
    requires Step(a, s, act).To? && (s.result.ContextDone? ==> s.cancelled)
    ensures var t := Step(a, s, act).state; t.result.ContextDone? ==> t.cancelled
  {
    match act {
      case Main(_) => hide ManagerStep, CallerStep, BodyStep;
      case Manager(_) => hide MainStep, CallerStep, BodyStep;
      case Caller(_) => hide MainStep, ManagerStep, BodyStep;
      case Body => hide MainStep, ManagerStep, CallerStep;
      case _ => hide MainStep, ManagerStep, CallerStep, BodyStep;
    }
  }

  /** `Run` returns nil only with its context cancelled. */
  lemma {:induction false} NilMeansCancelled(a: App, s: State, acts: seq<Action>, t: State)
    requires (s.result.ContextDone? ==> s.cancelled) && Runs(a, s, acts, t)
    ensures t.result.ContextDone? ==> t.cancelled
    decreases |acts|
  {
    hide Step;
    if acts != [] {
      NilStep(a, s, acts[0]);
      NilMeansCancelled(a, Step(a, s, acts[0]).state, acts[1..], t);
    }
  }

  /** After cancellation the application never gets stuck before `Run` has returned. */
  lemma ShutdownNeverStuck(a: App, s: State)
    requires Reachable(a, s) && s.cancelled && !s.main.Finished?
    ensures exists act: Action :: !act.CancelParent? && !act.CallStop? && Step(a, s, act).To?
  {
    ReachableInv(a, s);
    hide Reachable, InvHooks;
    if s.manager != NotLaunched && s.manager != Gone {
      assert Step(a, s, Manager(None)).To?;
    } else if s.main.DeferredStop? && s.once.Claimed? {
      assert Step(a, s, Body).To?;
    } else if s.main.DeferredStop? && s.callers[Deferred] != Returned {
      assert Step(a, s, Caller(Deferred)).To?;
    } else {
      assert Step(a, s, Main(true)).To?;
    }
  }
}

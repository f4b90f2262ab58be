/** The service manager comes to an end: every step uses up a bounded supply, and where no step is
    left `Run` has returned or waits, uncancelled, for something from outside. */
module ManagerShutdown {
  import opened Common
  import opened MapSums
  import opened DependencyOrder
  import opened ManagerProtocol
  import opened ManagerInvariant
  import opened StopCallers

  // ---------------------------------------------------------------- the supply

  /** The retries left after attempt `k`. */
  function RetriesAfter(retries: nat, k: nat): nat {
    if k < retries then retries - k else 0
  }

  function ServiceRank(retries: nat, pc: ServicePc): nat {
    match pc
    case Idle => 7 + 3 * retries
    case Spawned => 6 + 3 * retries
    case Attempt(k) => 5 + 3 * RetriesAfter(retries, k)
    case Failed(k, _) => 4 + 3 * RetriesAfter(retries, k)
    case Delay(k) => 3 + 3 * RetriesAfter(retries, k)
    case Handle(_) => 3
    case Send(_) => 2
    case Exiting => 1
    case Gone => 0
  }

  function StopRank(call: StopCall): nat {
    (match call.pc
     case NotAsked => 3
     case Asked => 2
     case InStop => 1
     case Stopped => 0)
    + if call.joined then 0 else 1
  }

  /** Steps left to start groups `g` on. */
  function StartSupply(groups: seq<seq<Name>>, g: nat): nat
    decreases |groups| - g
  {
    if g >= |groups| then 0 else 2 * |groups[g]| + 4 + StartSupply(groups, g + 1)
  }

  function MainRank(c: Config, main: MainPc): int {
    match main
    case SetCancel => 40 + StartSupply(c.groups, 0)
    case Resolve => 39 + StartSupply(c.groups, 0)
    case LockStart => 38 + StartSupply(c.groups, 0)
    case Launch(g, j) => 20 + StartSupply(c.groups, g) - j
    case Drain(g) => if g < |c.groups| then 23 + |c.groups[g]| + StartSupply(c.groups, g + 1) else 0
    case AwaitReady(g, j) => if g < |c.groups| then 22 + |c.groups[g]| - j + StartSupply(c.groups, g + 1) else 0
    case Record(g) => 21 + StartSupply(c.groups, g + 1)
    case UnlockStart => 20
    case Select => 19
    case DeferredStop => 10
    case AwaitServices => 9
    case CloseErrCh => 8
    case Finished => 7
  }

  /** Steps left to stop the first `left` groups. */
  function StopSupply(groups: seq<seq<Name>>, left: nat): nat {
    if left == 0 || left > |groups| then 0 else |groups[left - 1]| + 2 + StopSupply(groups, left - 1)
  }

  function OnceRank(c: Config, once: Once): int {
    match once
    case Fresh => 7 + StopSupply(c.groups, |c.groups|)
    case Claimed(_, LockGroups) => 6 + StopSupply(c.groups, |c.groups|)
    case Claimed(_, Ask(left, j)) => 4 + StopSupply(c.groups, left) - j
    case Claimed(_, Join(left)) => if left == 0 then 0 else 5 + StopSupply(c.groups, left - 1)
    case Claimed(_, UnlockGroups) => 3
    case Over => 2
  }

  function Retries(c: Config, n: Name): nat { if n in c.traits then c.traits[n].maxRetries else 0 }

  function ServiceRanks(c: Config, svc: map<Name, ServicePc>): map<Name, nat> {
    map n | n in svc :: ServiceRank(Retries(c, n), svc[n])
  }

  function StopRanks(stops: map<Name, StopCall>): map<Name, nat> { map n | n in stops :: StopRank(stops[n]) }

  ghost function ServiceSupply(c: Config, svc: map<Name, ServicePc>): nat { Sum(ServiceRanks(c, svc)) }

  ghost function StopCallSupply(stops: map<Name, StopCall>): nat { Sum(StopRanks(stops)) }

  ghost function Supply(c: Config, s: State): int {
    MainRank(c, s.main) + OnceRank(c, s.stopping.once)
    + ServiceSupply(c, s.pool.svc) + StopCallSupply(s.stopping.stops) + CallerSupply(s.stopping.callers)
  }

  lemma ServiceSupplyMoved(c: Config, svc: map<Name, ServicePc>, n: Name, pc: ServicePc)
    requires n in svc
    ensures ServiceSupply(c, svc[n := pc])
         == ServiceSupply(c, svc) - ServiceRank(Retries(c, n), svc[n]) + ServiceRank(Retries(c, n), pc)
  {
    hide Sum, ServiceRank;
    var rank := ServiceRank(Retries(c, n), pc);
    assert ServiceRanks(c, svc[n := pc]) == ServiceRanks(c, svc)[n := rank];
    SumUpdate(ServiceRanks(c, svc), n, rank);
  }

  lemma StopCallSupplyMoved(stops: map<Name, StopCall>, n: Name, call: StopCall)
    requires n in stops
    ensures StopCallSupply(stops[n := call]) == StopCallSupply(stops) - StopRank(stops[n]) + StopRank(call)
  {
    hide Sum;
    assert StopRanks(stops[n := call]) == StopRanks(stops)[n := StopRank(call)];
    SumUpdate(StopRanks(stops), n, StopRank(call));
  }

  lemma SupplyIsNatural(c: Config, s: State)
    requires Inv(c, s)
    ensures Supply(c, s) >= 0
  {
    hide InvLaunched, InvDrained, InvReady, InvWaitGroup, InvErrors, InvLock, InvGroups, InvCallers, InvStops, InvCalls;
    assert MainRank(c, s.main) >= 0;
    assert OnceRank(c, s.stopping.once) >= 0;
    hide MainRank, OnceRank;
  }

  // ---------------------------------------------------------------- every step uses some of it up

  /** Where a step of the start loop leads. */
  predicate StartGoesTo(c: Config, from: MainPc, to: MainPc) {
    match from
    case LockStart => to == if |c.groups| > 0 then Launch(0, 0) else UnlockStart
    case Launch(g, j) => g < |c.groups| && to == if j >= |c.groups[g]| then Drain(g) else Launch(g, j + 1)
    case Drain(g) => g < |c.groups| && to == AwaitReady(g, 0)
    case AwaitReady(g, j) => g < |c.groups| && (to == Record(g) || (j < |c.groups[g]| && to == AwaitReady(g, j + 1)))
    case Record(g) => g < |c.groups| && to == if g + 1 < |c.groups| then Launch(g + 1, 0) else UnlockStart
    case UnlockStart => to == Select
    case _ => false
  }

  lemma StartGoes(c: Config, s: State, p: bool)
    requires InStart(s.main) && StartStep(c, s, p).To?
    ensures StartGoesTo(c, s.main, StartStep(c, s, p).state.main)
  {
    hide StillSpawned, Spawn;
  }

  lemma SupplyOfStart(groups: seq<seq<Name>>, g: nat)
    ensures StartSupply(groups, g) == if g >= |groups| then 0 else 2 * |groups[g]| + 4 + StartSupply(groups, g + 1)
  {
  }

  lemma StartPcAdvances(c: Config, from: MainPc, to: MainPc, result: RunResult, cancelSet: bool)
    requires StartGoesTo(c, from, to) && (from.LockStart? ==> |c.groups| > 0) && InvMain(c, from, result, cancelSet)
    ensures MainRank(c, to) < MainRank(c, from)
  {
    match from {
      case LockStart => hide InvMain, StartSupply;
      case Launch(g, _) => SupplyOfStart(c.groups, g); hide StartSupply;
      case Record(g) => SupplyOfStart(c.groups, g + 1); hide StartSupply, InvMain;
      case _ => hide StartSupply;
    }
  }

  lemma StartAdvances(c: Config, s: State, p: bool)
    requires InStart(s.main) && StartStep(c, s, p).To? && (s.main.LockStart? ==> |c.groups| > 0)
    requires InvMain(c, s.main, s.result, s.cancelSet)
    ensures MainRank(c, StartStep(c, s, p).state.main) < MainRank(c, s.main)
  {
    StartGoes(c, s, p);
    hide StartStep, StartGoesTo, MainRank, InvMain;
    StartPcAdvances(c, s.main, StartStep(c, s, p).state.main, s.result, s.cancelSet);
  }

  lemma LaunchUses(c: Config, p: Pool, g: nat, j: nat)
    requires ValidConfig(c) && g < |c.groups| && j < |c.groups[g]| && !c.cyclic && p.svc.Keys == c.traits.Keys
    requires InvLaunched(c, p.svc, Slot(g, j))
    ensures ServiceSupply(c, Spawn(p, c.groups[g][j]).svc) < ServiceSupply(c, p.svc)
  {
    hide ServiceSupply;
    BeforeNext(c, g, j);
    hide ValidConfig;
    ServiceSupplyMoved(c, p.svc, c.groups[g][j], Spawned);
    assert p.svc[c.groups[g][j]] == Idle;
  }

  lemma StartUses(c: Config, s: State, p: bool)
    requires ValidConfig(c) && Inv(c, s) && InStart(s.main) && StartStep(c, s, p).To?
    ensures Supply(c, StartStep(c, s, p).state) < Supply(c, s)
  {
    hide ValidConfig, InvDrained, InvReady, InvWaitGroup, InvErrors, InvStopping, MainRank, OnceRank, ServiceSupply,
         StopCallSupply, CallerSupply;
    if s.main.LockStart? { SomeGroup(c); }
    StartAdvances(c, s, p);
    StartMoves(c, s, p);
    if s.main.Launch? && s.main.j < |c.groups[s.main.g]| {
      LaunchUses(c, s.pool, s.main.g, s.main.j);
    } else if s.main.Launch? {
      assert StartStep(c, s, p).state.pool == s.pool;
    }
  }

  /** Where a step of `Run` before or after the start loop leads. */
  predicate RunGoesTo(from: MainPc, to: MainPc) {
    match from
    case SetCancel => to == Resolve
    case Resolve => to == LockStart || to == DeferredStop
    case Select => to == DeferredStop
    case DeferredStop => to == AwaitServices
    case AwaitServices => to == CloseErrCh
    case CloseErrCh => to == Finished
    case _ => false
  }

  lemma RunGoes(c: Config, s: State, p: bool)
    requires !InStart(s.main) && RunStep(c, s, p).To?
    ensures RunGoesTo(s.main, RunStep(c, s, p).state.main)
  {
  }

  /** Leaving for the deferred `Stop` also pays for the caller it adds. */
  lemma RunAdvances(c: Config, s: State, p: bool)
    requires !InStart(s.main) && RunStep(c, s, p).To?
    ensures var t := RunStep(c, s, p).state;
            MainRank(c, t.main) + (if !AfterSelect(s.main) && AfterSelect(t.main) then CallerRank(Entered) else 0)
            < MainRank(c, s.main)
  {
    RunGoes(c, s, p);
    hide StartSupply, RunStep;
  }

  lemma RunUses(c: Config, s: State, p: bool)
    requires !InStart(s.main) && RunStep(c, s, p).To? && Inv(c, s)
    ensures Supply(c, RunStep(c, s, p).state) < Supply(c, s)
  {
    var t := RunStep(c, s, p).state;
    RunMoves(c, s, p);
    RunLeavesOrMoves(c, s, p);
    RunAdvances(c, s, p);
    hide Inv, RunStep, MainRank, ServiceSupply, StopCallSupply, CallerSupply, OnceRank, LaunchedTo, DrainedTo, ReadyTo;
    CallerSupplyMoved(s.stopping.callers, Deferred, Entered);
  }

  lemma NextAdvances(t: Traits, cancelled: bool, pc: ServicePc, outcome: Outcome, contextFirst: bool)
    requires pc != Idle && pc != Gone && (pc.Delay? ==> pc.attempt < t.maxRetries)
    ensures ServiceRank(t.maxRetries, NextPc(t, cancelled, pc, outcome, contextFirst)) < ServiceRank(t.maxRetries, pc)
  {
  }

  /** What the invariant says of a goroutine that can step. */
  lemma MovingService(c: Config, s: State, n: Name, outcome: Outcome, contextFirst: bool)
    requires Inv(c, s) && ServiceStep(c, s, n, outcome, contextFirst).To?
    ensures n in s.pool.svc && s.pool.svc[n] != Idle && s.pool.svc[n] != Gone
    ensures AttemptsFit(c.traits[n], s.pool.svc[n], s.pool.failures[n]) && s.pool.wg > 0 && !s.errCh.closed
  {
    hide InvMain, InvLaunched, InvDrained, InvReady, InvStopping, InvReported, AttemptsFit, LaunchedTo, DrainedTo,
         ReadyTo, NextPc;
    LiveIsCounted(s.pool, n);
  }

  lemma ServiceAdvances(c: Config, s: State, n: Name, outcome: Outcome, contextFirst: bool)
    requires SameKeys(c, s) && !s.errCh.closed && ServiceStep(c, s, n, outcome, contextFirst).To?
    requires AttemptsFit(c.traits[n], s.pool.svc[n], s.pool.failures[n])
    ensures var t := ServiceStep(c, s, n, outcome, contextFirst).state;
            n in t.pool.svc && ServiceRank(Retries(c, n), t.pool.svc[n]) < ServiceRank(Retries(c, n), s.pool.svc[n])
  {
    assert s.pool.svc[n].Delay? ==> s.pool.svc[n].attempt < c.traits[n].maxRetries;
    hide ServiceRank, NextPc, Report, AttemptsFit;
    NextAdvances(c.traits[n], s.cancelled, s.pool.svc[n], outcome, contextFirst);
  }

  lemma ServiceUses(c: Config, s: State, n: Name, outcome: Outcome, contextFirst: bool)
    requires Inv(c, s) && ServiceStep(c, s, n, outcome, contextFirst).To?
    ensures Supply(c, ServiceStep(c, s, n, outcome, contextFirst).state) < Supply(c, s)
  {
    MovingService(c, s, n, outcome, contextFirst);
    ServiceMoves(c, s, n, outcome, contextFirst);
    ServiceAdvances(c, s, n, outcome, contextFirst);
    hide Inv, ServiceStep, AttemptsFit, ServiceSupply, StopCallSupply, CallerSupply, OnceRank, MainRank, ServiceRank,
         Report;
    var t := ServiceStep(c, s, n, outcome, contextFirst).state;
    ServiceSupplyMoved(c, s.pool.svc, n, t.pool.svc[n]);
    hide ServiceMove;
  }

  lemma CallerAdvances(c: Config, s: State, id: CallerId)
    requires CallerStep(s, id).To?
    ensures id in s.stopping.callers
    ensures var t := CallerStep(s, id).state;
            && id in t.stopping.callers && t.stopping.callers == s.stopping.callers[id := t.stopping.callers[id]]
            && CallerRank(t.stopping.callers[id]) + OnceRank(c, t.stopping.once)
               < CallerRank(s.stopping.callers[id]) + OnceRank(c, s.stopping.once)
  {
    hide StopSupply;
    CallerMoves(s, id);
  }

  lemma CallerUses(c: Config, s: State, id: CallerId)
    requires CallerStep(s, id).To?
    ensures Supply(c, CallerStep(s, id).state) < Supply(c, s)
  {
    CallerMoves(s, id);
    CallerAdvances(c, s, id);
    hide CallerStep, OnceRank, CallerRank;
    CallerSupplyMoved(s.stopping.callers, id, CallerStep(s, id).state.stopping.callers[id]);
    hide ServiceSupply, StopCallSupply, CallerSupply, MainRank;
  }

  lemma StopSupplyStep(groups: seq<seq<Name>>, left: nat)
    ensures StopSupply(groups, left) ==
      if left == 0 || left > |groups| then 0 else |groups[left - 1]| + 2 + StopSupply(groups, left - 1)
  {
  }

  lemma BodyAdvances(c: Config, s: State)
    requires BodyStep(s).To? && (!s.writer ==> s.startGroups == [] || s.startGroups == c.groups)
    requires InvLock(s.main, s.writer, s.reader, s.stopping.once)
    requires InvSeen(c, s.stopping.seen, s.startGroups, s.reader, s.stopping.once)
    ensures OnceRank(c, BodyStep(s).state.stopping.once) < OnceRank(c, s.stopping.once)
  {
    hide StillStopping;
    match s.stopping.once.body {
      case LockGroups => hide InvSeen;
      case UnlockGroups => hide InvSeen, StopSupply;
      case Join(_) => hide StopSupply;
      case Ask(left, _) => StopSupplyStep(c.groups, left); hide StopSupply;
    }
  }

  predicate Asks(s: State) {
    && s.stopping.once.Claimed? && s.stopping.once.body.Ask? && 0 < s.stopping.once.body.left <= |s.startGroups|
    && s.stopping.once.body.j < |s.startGroups[s.stopping.once.body.left - 1]|
  }

  lemma OnlyAsksTouchStops(s: State)
    requires BodyStep(s).To? && !Asks(s)
    ensures BodyStep(s).state.stopping.stops == s.stopping.stops
  {
  }

  lemma AskUsesStops(c: Config, s: State)
    requires ValidConfig(c) && BodyStep(s).To? && Asks(s) && s.reader && s.stopping.stops.Keys == c.traits.Keys
    requires InvSeen(c, s.stopping.seen, s.startGroups, s.reader, s.stopping.once)
    requires InvStops(c, s.stopping.once, s.stopping.seen, s.stopping.stops)
    ensures StopCallSupply(BodyStep(s).state.stopping.stops) < StopCallSupply(s.stopping.stops)
  {
    hide StopCallSupply;
    var st := s.stopping;
    AskOne(c, st.once.owner, st.seen, st.stops, st.once.body.left, st.once.body.j);
    hide ValidConfig, InvStops;
    StopCallSupplyMoved(st.stops, s.startGroups[st.once.body.left - 1][st.once.body.j], StopCall(Asked, false));
  }

  lemma BodyUses(c: Config, s: State)
    requires ValidConfig(c) && Inv(c, s) && BodyStep(s).To?
    ensures Supply(c, BodyStep(s).state) < Supply(c, s)
  {
    hide InvRun, InvErrors, InvCallers, InvCalls, StillStopping, MainRank, OnceRank, ServiceSupply, StopCallSupply,
         CallerSupply;
    if !s.writer { FreeLockShowsAllOrNothing(c, s); }
    hide InvGroups;
    BodyAdvances(c, s);
    BodyMoves(s);
    hide InvLock;
    if Asks(s) {
      AskUsesStops(c, s);
    } else {
      OnlyAsksTouchStops(s);
    }
    hide BodyStep, InvStops, InvSeen, ValidConfig, Asks;
  }

  lemma StopUses(c: Config, s: State, n: Name, st': Stopping)
    requires Inv(c, s)
    requires StopStep(s.stopping, n) == StopTo(st') || JoinStep(s.stopping, n, true) == StopTo(st')
      || JoinStep(s.stopping, n, false) == StopTo(st')
    ensures Supply(c, s.(stopping := st')) < Supply(c, s)
  {
    hide Inv;
    StopCallSupplyMoved(s.stopping.stops, n, st'.stops[n]);
    hide ServiceSupply, StopCallSupply, CallerSupply, MainRank, OnceRank;
  }

  predicate BySystem(a: Action) {
    !ByEnvironment(a)
  }

  predicate IsNewCaller(a: Action) {
    a.CallStop?
  }

  lemma StepUses(c: Config, s: State, a: Action)
    requires ValidConfig(c) && Inv(c, s) && BySystem(a) && Step(c, s, a).To?
    ensures Supply(c, Step(c, s, a).state) < Supply(c, s)
  {
    hide ValidConfig, Inv, StartStep, RunStep, ServiceStep, CallerStep, BodyStep, StopStep, JoinStep, Supply;
    match a {
      case Main(p) => if InStart(s.main) { StartUses(c, s, p); } else { RunUses(c, s, p); }
      case Service(n, outcome, contextFirst) => ServiceUses(c, s, n, outcome, contextFirst);
      case Caller(id) => CallerUses(c, s, id);
      case Body => BodyUses(c, s);
      case StopGoroutine(n) => StopUses(c, s, n, StopStep(s.stopping, n).stopping);
      case StopJoined(n, timedOut) => StopUses(c, s, n, JoinStep(s.stopping, n, timedOut).stopping);
    }
  }

  // ---------------------------------------------------------------- nothing gets stuck

  lemma LiveServiceMoves(c: Config, s: State)
    requires Inv(c, s) && s.pool.wg > 0
    ensures exists n :: ServiceStep(c, s, n, Succeeds, true).To?
  {
    var n :| n in ActiveServices(s.pool.svc);
    assert ServiceStep(c, s, n, Succeeds, true).To?;
  }

  lemma SpawnedServiceMoves(c: Config, s: State, n: Name)
    requires SameKeys(c, s) && n in s.pool.svc && s.pool.svc[n] == Spawned
    ensures ServiceStep(c, s, n, Succeeds, true).To?
  {
  }

  lemma BodyOrStopMoves(c: Config, s: State)
    requires ValidConfig(c) && Inv(c, s) && s.stopping.once.Claimed? && !s.writer
    ensures BodyStep(s).To? || exists n :: JoinStep(s.stopping, n, true).StopTo?
  {
    hide InvRun, InvErrors, InvGroups, InvCallers, InvStops, InvCalls, ValidConfig;
    var st := s.stopping;
    if st.once.body.Join? && StillStopping(s.startGroups[st.once.body.left - 1], st.stops) {
      var n :| n in s.startGroups[st.once.body.left - 1] && n in st.stops && !st.stops[n].joined;
      JoiningIsAsked(c, st, n);
      assert JoinStep(st, n, true).StopTo?;
    }
  }

  lemma JoiningIsAsked(c: Config, st: Stopping, n: Name)
    requires ValidConfig(c) && st.once.Claimed? && st.once.body.Join? && st.seen == c.groups
    requires 0 < st.once.body.left <= |c.groups| && n in c.groups[st.once.body.left - 1] && n in st.stops
    requires InvStops(c, st.once, st.seen, st.stops)
    ensures st.stops[n].pc != NotAsked
  {
  }

  /** Some goroutine of the manager, of a service or of a `Stop` can take a step. */
  ghost predicate CanMove(c: Config, s: State)
    requires SameKeys(c, s)
  {
    exists a :: BySystem(a) && Step(c, s, a).To?
  }

  /** `Run` is at a service that is to signal readiness and has not. */
  ghost predicate AwaitsSignal(c: Config, s: State) {
    && s.main.AwaitReady? && s.main.g < |c.groups| && s.main.j < |c.groups[s.main.g]|
    && var n := c.groups[s.main.g][s.main.j]; n in c.traits && c.traits[n].readyNotifier && n !in s.ready
  }

  /** No service is live and `Run` waits for something from outside: at its select with no failure
      reported, or for a service's signal. */
  ghost predicate Waits(c: Config, s: State) {
    !s.cancelled && s.pool.wg == 0 && (AwaitsSignal(c, s) || (s.main.Select? && s.errCh.reported == []))
  }

  lemma MainCanMove(c: Config, s: State)
    requires SameKeys(c, s) && InvMain(c, s.main, s.result, s.cancelSet)
    requires s.cancelled || !(AwaitsSignal(c, s) || (s.main.Select? && s.errCh.buffer.None?))
    requires !s.main.LockStart? && !s.main.Drain? && !s.main.DeferredStop? && !s.main.AwaitServices?
      && !s.main.Finished?
    ensures MainStep(c, s, true).To?
  {
    hide Spawn, StillSpawned;
  }

  lemma BodyGivesMove(c: Config, s: State)
    requires ValidConfig(c) && SameKeys(c, s) && Inv(c, s) && s.stopping.once.Claimed? && !s.writer
    ensures CanMove(c, s)
  {
    hide ValidConfig, Inv, MainStep, ServiceStep, CallerStep, BodyStep, JoinStep;
    BodyOrStopMoves(c, s);
    if BodyStep(s).To? {
      assert Step(c, s, Body).To?;
    } else {
      var n :| JoinStep(s.stopping, n, true).StopTo?;
      assert Step(c, s, StopJoined(n, true)).To?;
    }
  }

  lemma LockStartCanMove(c: Config, s: State)
    requires ValidConfig(c) && SameKeys(c, s) && Inv(c, s) && s.main.LockStart?
    requires InvLock(s.main, s.writer, s.reader, s.stopping.once)
    ensures CanMove(c, s)
  {
    hide ValidConfig, Inv;
    if s.reader { BodyGivesMove(c, s); } else { assert MainStep(c, s, true).To?; MainGivesMove(c, s); }
  }

  lemma DrainCanMove(c: Config, s: State)
    requires SameKeys(c, s) && InvMain(c, s.main, s.result, s.cancelSet) && s.main.Drain?
    ensures CanMove(c, s)
  {
    var group := c.groups[s.main.g];
    if StillSpawned(group, s.pool.svc) {
      var n :| n in group && n in s.pool.svc && s.pool.svc[n] == Spawned;
      SpawnedServiceMoves(c, s, n);
      hide ServiceStep;
      assert Step(c, s, Service(n, Succeeds, true)).To?;
    } else {
      hide StillSpawned;
      assert MainStep(c, s, true).To?;
      hide MainStep;
      MainGivesMove(c, s);
    }
  }

  lemma InBodyNotFresh(c: Config, s: State, id: CallerId)
    requires Inv(c, s) && id in s.stopping.callers && s.stopping.callers[id] == InBody
    ensures !s.stopping.once.Fresh?
  {
  }

  lemma DeferredStopCanMove(c: Config, s: State)
    requires ValidConfig(c) && Inv(c, s) && s.main.DeferredStop?
    ensures CanMove(c, s)
  {
    assert !s.writer && Deferred in s.stopping.callers by { hide InvRun, InvErrors, ValidConfig; }
    hide Inv;
    if s.stopping.once.Claimed? {
      BodyGivesMove(c, s);
    } else if s.stopping.callers[Deferred] == Returned {
      assert Step(c, s, Main(true)).To?;
    } else {
      if s.stopping.callers[Deferred] == InBody { InBodyNotFresh(c, s, Deferred); }
      assert Step(c, s, Caller(Deferred)).To?;
    }
  }

  lemma LiveGivesMove(c: Config, s: State)
    requires Inv(c, s) && s.pool.wg > 0
    ensures CanMove(c, s)
  {
    hide ServiceStep;
    LiveServiceMoves(c, s);
    hide Inv;
    var n :| ServiceStep(c, s, n, Succeeds, true).To?;
    assert Step(c, s, Service(n, Succeeds, true)).To?;
  }

  lemma ReportedIsBuffered(c: Config, s: State)
    requires Inv(c, s) && s.main.Select? && s.errCh.reported != []
    ensures s.errCh.buffer.Some?
  {
    hide InvLaunched, InvDrained, InvReady, InvWaitGroup, InvAttempts, InvReported, InvStopping;
  }

  /** No interleaving gets stuck before `Run` has returned, except where it waits for something from
      outside. A service's own run is taken to return, since its outcome is always enabled. */
  lemma StuckOnlyWaiting(c: Config, s: State)
    requires ValidConfig(c) && Inv(c, s) && !s.main.Finished?
    ensures SameKeys(c, s) && (CanMove(c, s) || Waits(c, s))
  {
    assert SameKeys(c, s) && InvMain(c, s.main, s.result, s.cancelSet);
    assert InvLock(s.main, s.writer, s.reader, s.stopping.once);
    hide ValidConfig, Inv, InvMain, InvLock, CanMove, MainStep, AwaitsSignal;
    if s.pool.wg > 0 {
      LiveGivesMove(c, s);
    } else {
      match s.main {
        case LockStart => LockStartCanMove(c, s);
        case Drain(g) => DrainCanMove(c, s);
        case DeferredStop => DeferredStopCanMove(c, s);
        case AwaitServices => MainGivesMove(c, s) by { assert RunStep(c, s, true).To?; }
        case _ =>
          if !Waits(c, s) {
            if s.main.Select? && s.errCh.reported != [] { ReportedIsBuffered(c, s); }
            MainCanMove(c, s);
            MainGivesMove(c, s);
          }
      }
    }
  }

  /** So after cancellation none does. */
  lemma ShutdownNeverStuck(c: Config, s: State)
    requires ValidConfig(c) && Inv(c, s) && s.cancelled && !s.main.Finished?
    ensures SameKeys(c, s) && CanMove(c, s)
  {
    hide ValidConfig, Inv, CanMove;
    StuckOnlyWaiting(c, s);
  }

  lemma MainGivesMove(c: Config, s: State)
    requires SameKeys(c, s) && MainStep(c, s, true).To?
    ensures CanMove(c, s)
  {
    assert Step(c, s, Main(true)).To?;
  }

  // ---------------------------------------------------------------- every run

  lemma EnvironmentSupplies(c: Config, s: State, a: Action)
    requires SameKeys(c, s) && ByEnvironment(a) && Step(c, s, a).To?
    ensures Supply(c, Step(c, s, a).state) == Supply(c, s) + if a.CallStop? then 4 else 0
  {
    if a.CallStop? { CallerSupplyMoved(s.stopping.callers, External(a.id), Entered); }
    hide ServiceSupply, StopCallSupply, CallerSupply, MainRank, OnceRank;
  }

  lemma StaysCancelled(c: Config, s: State, a: Action)
    requires SameKeys(c, s) && s.cancelled && Step(c, s, a).To?
    ensures Step(c, s, a).state.cancelled
  {
    match a {
      case Main(p) => MainKeepsContext(c, s, p); hide MainStep;
      case _ =>
    }
  }

  lemma MainKeepsContext(c: Config, s: State, p: bool)
    requires MainStep(c, s, p).To?
    ensures MainStep(c, s, p).state.cancelled == s.cancelled
  {
    hide StillSpawned, Spawn;
    if InStart(s.main) { hide RunStep; } else { RunFrame(c, s, p); hide StartStep, RunStep; }
  }

  lemma {:induction false} SupplyBoundsRun(c: Config, s: State, acts: seq<Action>, t: State)
    requires ValidConfig(c) && Inv(c, s) && Runs(c, s, acts, t)
    ensures Inv(c, t) && (s.cancelled ==> t.cancelled)
    ensures Count(acts, BySystem) + Supply(c, t) <= Supply(c, s) + 4 * Count(acts, IsNewCaller)
    decreases |acts|
  {
    hide ValidConfig, Inv, Step, Supply;
    if acts != [] {
      var next := Step(c, s, acts[0]).state;
      StepKeepsInv(c, s, acts[0]);
      if s.cancelled { StaysCancelled(c, s, acts[0]); }
      if ByEnvironment(acts[0]) { EnvironmentSupplies(c, s, acts[0]); } else { StepUses(c, s, acts[0]); }
      SupplyBoundsRun(c, next, acts[1..], t);
    }
  }

  /** However the goroutines interleave, the manager takes a bounded number of steps beyond those of
      the environment; where none is left to take, `Run` has returned or waits for something from
      outside, and after cancellation it has returned. */
  lemma ShutdownTerminates(c: Config, s: State, acts: seq<Action>, t: State)
    requires ValidConfig(c) && Reachable(c, s) && Runs(c, s, acts, t)
    ensures Count(acts, BySystem) <= Supply(c, s) + 4 * Count(acts, IsNewCaller)
    ensures SameKeys(c, t) && (CanMove(c, t) || t.main.Finished? || Waits(c, t))
    ensures s.cancelled ==> CanMove(c, t) || t.main.Finished?
  {
    hide Reachable, Runs;
    ReachableInv(c, s);
    SupplyBoundsRun(c, s, acts, t);
    SupplyIsNatural(c, t);
    if !t.main.Finished? { StuckOnlyWaiting(c, t); }
    hide ValidConfig, InvRun, InvErrors, InvStopping, Supply, CanMove, AwaitsSignal;
  }
}

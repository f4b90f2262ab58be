/** What every step of the service manager's protocol keeps, piece by piece. */
module ManagerInvariant {
  import opened Common
  import opened DependencyOrder
  import opened ManagerProtocol
  import opened StopCallers

  /** `n` sits in a group before `at.group`, or in that group before `at.index`. */
  predicate Before(c: Config, n: Name, at: Slot) {
    n in c.slots && (c.slots[n].group < at.group || (c.slots[n].group == at.group && c.slots[n].index < at.index))
  }

  /** Moving one place on adds exactly the service there. */
  lemma BeforeNext(c: Config, g: nat, j: nat)
    requires ValidConfig(c) && g < |c.groups| && j < |c.groups[g]|
    ensures c.groups[g][j] in c.slots && !Before(c, c.groups[g][j], Slot(g, j))
    ensures forall n :: Before(c, n, Slot(g, j + 1)) <==> Before(c, n, Slot(g, j)) || n == c.groups[g][j]
  {
  }

  lemma BeforeWholeGroup(c: Config, g: nat)
    requires ValidConfig(c) && g < |c.groups|
    ensures forall n :: Before(c, n, Slot(g, |c.groups[g]|)) <==> Before(c, n, Slot(g + 1, 0))
  {
  }

  // ---------------------------------------------------------------- the invariant

  predicate Early(r: RunResult) {
    r.NoEnabledServices? || r.OrderFailed?
  }

  predicate AfterSelect(pc: MainPc) {
    pc.DeferredStop? || pc.AwaitServices? || pc.CloseErrCh? || pc.Finished?
  }

  predicate Starting(pc: MainPc) {
    pc.Launch? || pc.Drain? || pc.AwaitReady? || pc.Record? || pc.UnlockStart?
  }

  /** How far the services have been launched, seen running, and waited for. */
  function LaunchedTo(c: Config, main: MainPc, result: RunResult): Slot {
    match main
    case SetCancel | Resolve | LockStart => Slot(0, 0)
    case Launch(g, j) => Slot(g, j)
    case Drain(g) => Slot(g + 1, 0)
    case AwaitReady(g, _) => Slot(g + 1, 0)
    case Record(g) => Slot(g + 1, 0)
    case _ => if Early(result) then Slot(0, 0) else Slot(|c.groups|, 0)
  }

  function DrainedTo(c: Config, main: MainPc, result: RunResult): Slot {
    match main
    case Launch(g, _) => Slot(g, 0)
    case Drain(g) => Slot(g, 0)
    case _ => LaunchedTo(c, main, result)
  }

  function ReadyTo(c: Config, main: MainPc, result: RunResult): Slot {
    match main
    case AwaitReady(g, j) => Slot(g, j)
    case _ => DrainedTo(c, main, result)
  }

  ghost predicate InvMain(c: Config, main: MainPc, result: RunResult, cancelSet: bool) {
    && (result.Running? <==> !AfterSelect(main))
    && (main.LockStart? || Starting(main) || main.Select? || (AfterSelect(main) && !Early(result)) ==>
          !c.cyclic && |c.traits| > 0)
    && (result.NoEnabledServices? ==> |c.traits| == 0)
    && (result.OrderFailed? ==> c.cyclic)
    && (match main
        case Launch(g, j) => g < |c.groups| && j <= |c.groups[g]|
        case Drain(g) => g < |c.groups|
        case AwaitReady(g, j) => g < |c.groups| && j <= |c.groups[g]|
        case Record(g) => g < |c.groups|
        case _ => true)
    && (cancelSet <==> !main.SetCancel?)
  }

  ghost predicate InvLaunched(c: Config, svc: map<Name, ServicePc>, at: Slot) {
    forall n {:trigger svc[n]} :: n in svc ==> (svc[n] != Idle <==> Before(c, n, at))
  }

  ghost predicate InvDrained(c: Config, svc: map<Name, ServicePc>, at: Slot) {
    forall n {:trigger svc[n]} :: n in svc && Before(c, n, at) ==> svc[n] != Idle && svc[n] != Spawned
  }

  ghost predicate InvReady(c: Config, ready: set<Name>, cancelled: bool, at: Slot) {
    cancelled ||
    forall n {:trigger c.traits[n]} ::
      n in c.traits && Before(c, n, at) && c.traits[n].readyNotifier ==> n in ready
  }

  function ActiveServices(svc: map<Name, ServicePc>): set<Name> {
    set n | n in svc && svc[n] != Idle && svc[n] != Gone
  }

  /** The wait group counts the live goroutines. */
  ghost predicate InvWaitGroup(p: Pool) {
    p.wg == |ActiveServices(p.svc)|
  }

  ghost predicate InvLock(main: MainPc, writer: bool, reader: bool, once: Once) {
    && (writer <==> Starting(main))
    && (reader <==> once.Claimed? && !once.body.LockGroups?)
    && !(writer && reader)
  }

  ghost predicate InvGroups(c: Config, main: MainPc, result: RunResult, startGroups: seq<seq<Name>>) {
    match main
    case SetCancel | Resolve | LockStart => startGroups == []
    case Launch(g, _) => g <= |c.groups| && startGroups == c.groups[..g]
    case Drain(g) => g <= |c.groups| && startGroups == c.groups[..g]
    case AwaitReady(g, _) => g <= |c.groups| && startGroups == c.groups[..g]
    case Record(g) => g <= |c.groups| && startGroups == c.groups[..g]
    case _ => startGroups == if Early(result) then [] else c.groups
  }

  /** What a service's place in its retry loop says about the runs that failed. */
  ghost predicate AttemptsFit(t: Traits, pc: ServicePc, failures: nat) {
    match pc
    case Idle | Spawned => failures == 0
    case Attempt(k) => k <= t.maxRetries && failures == k
    case Failed(k, _) => k <= t.maxRetries && failures == k + 1
    case Delay(k) => k < t.maxRetries && failures == k + 1
    case Handle(_) => failures == t.maxRetries + 1
    case Send(_) => failures == t.maxRetries + 1 && !t.allowedFailure
    case Exiting | Gone => failures <= t.maxRetries + 1
  }

  ghost predicate InvAttempts(c: Config, p: Pool) {
    p.svc.Keys == p.failures.Keys == c.traits.Keys &&
    forall n {:trigger p.svc[n]} {:trigger p.failures[n]} :: n in c.traits ==>
      AttemptsFit(c.traits[n], p.svc[n], p.failures[n])
  }

  predicate HasLeft(p: Pool, n: Name) {
    n in p.svc && (p.svc[n] == Exiting || p.svc[n] == Gone)
  }

  /** Only exhausted services that may not fail are reported, each on its way out. */
  ghost predicate InvReported(c: Config, p: Pool, reported: seq<Failure>) {
    p.svc.Keys == p.failures.Keys == c.traits.Keys &&
    forall i {:trigger reported[i]} :: 0 <= i < |reported| ==>
      && reported[i].service in c.traits && !c.traits[reported[i].service].allowedFailure
      && HasLeft(p, reported[i].service)
      && p.failures[reported[i].service] == c.traits[reported[i].service].maxRetries + 1
  }

  /** The first report is in the channel until `Run` takes it, and is the one it takes. */
  ghost predicate InvChannel(main: MainPc, result: RunResult, ch: ErrCh, wg: nat) {
    && (ch.reported == [] ==> ch.buffer.None? && !result.ServiceFailed?)
    && (ch.reported != [] && !result.ServiceFailed? ==> ch.buffer == Some(ch.reported[0]))
    && (result.ServiceFailed? ==> ch.reported != [] && result.failure == ch.reported[0])
    && !ch.panicked
    && (ch.closed <==> main.Finished?)
    && (main.CloseErrCh? || main.Finished? ==> wg == 0)
  }

  ghost predicate InvCallers(main: MainPc, cancelled: bool, callers: map<CallerId, CallerPc>, once: Once) {
    && (Deferred in callers <==> AfterSelect(main))
    && (Deferred in callers && callers[Deferred] != Entered ==> cancelled)
    && (main.AwaitServices? || main.CloseErrCh? || main.Finished? ==> callers[Deferred] == Returned)
    && (forall id {:trigger callers[id]} :: id in callers && callers[id] == Returned ==> once.Over?)
    && (forall id {:trigger callers[id]} :: id in callers && callers[id] == InBody ==> !once.Fresh?)
    && (once.Claimed? ==> once.owner in callers && callers[once.owner] == InBody)
  }

  /** The groups from `left` on have been asked to stop, and group `left - 1` up to `j`. */
  function AskedFrom(once: Once, seen: nat): Slot {
    match once
    case Fresh => Slot(seen, 0)
    case Claimed(_, LockGroups) => Slot(seen, 0)
    case Claimed(_, Ask(left, j)) => Slot(left, j)
    case Claimed(_, Join(left)) => Slot(if left > 0 then left - 1 else 0, 0)
    case Claimed(_, UnlockGroups) => Slot(0, 0)
    case Over => Slot(0, 0)
  }

  function JoinedFrom(once: Once, seen: nat): nat {
    match once
    case Claimed(_, Join(left)) => left
    case _ => AskedFrom(once, seen).group
  }

  predicate IsAsked(c: Config, n: Name, at: Slot) {
    n in c.slots && (c.slots[n].group >= at.group || (c.slots[n].group + 1 == at.group && c.slots[n].index < at.index))
  }

  ghost predicate InvSeen(c: Config, seen: seq<seq<Name>>, startGroups: seq<seq<Name>>, reader: bool, once: Once) {
    && (seen != [] ==> seen == c.groups && startGroups == c.groups)
    && (once.Fresh? || (once.Claimed? && once.body.LockGroups?) ==> seen == [])
    && (reader ==> seen == startGroups)
    && (once.Claimed? ==>
          match once.body
          case LockGroups => true
          case Ask(left, j) => left <= |seen| && (left > 0 ==> j <= |seen[left - 1]|) && (left == 0 ==> j == 0)
          case Join(left) => 0 < left <= |seen|
          case UnlockGroups => true)
  }

  ghost predicate InvStops(c: Config, once: Once, seen: seq<seq<Name>>, stops: map<Name, StopCall>) {
    forall n {:trigger stops[n]} :: n in stops ==>
      && (stops[n].pc != NotAsked <==> seen != [] && IsAsked(c, n, AskedFrom(once, |seen|)))
      && (seen != [] && n in c.slots && c.slots[n].group >= JoinedFrom(once, |seen|) ==> stops[n].joined)
      && (stops[n].joined ==> stops[n].pc != NotAsked)
  }

  /** `calls` lists each service whose `Stop` was called, once. */
  ghost predicate InvCalls(stops: map<Name, StopCall>, calls: seq<Name>) {
    && NoDuplicates(calls)
    && (forall n :: n in calls ==> n in stops)
    && (forall n {:trigger stops[n]} ::
          n in stops ==> (n in calls <==> stops[n].pc == InStop || stops[n].pc == Stopped))
  }

  ghost predicate InvRun(c: Config, s: State) {
    && InvMain(c, s.main, s.result, s.cancelSet)
    && InvLaunched(c, s.pool.svc, LaunchedTo(c, s.main, s.result))
    && InvDrained(c, s.pool.svc, DrainedTo(c, s.main, s.result))
    && InvReady(c, s.ready, s.cancelled, ReadyTo(c, s.main, s.result))
    && InvWaitGroup(s.pool)
  }

  ghost predicate InvErrors(c: Config, s: State) {
    && InvAttempts(c, s.pool)
    && InvReported(c, s.pool, s.errCh.reported)
    && InvChannel(s.main, s.result, s.errCh, s.pool.wg)
  }

  ghost predicate InvStopping(c: Config, s: State) {
    && InvLock(s.main, s.writer, s.reader, s.stopping.once)
    && InvGroups(c, s.main, s.result, s.startGroups)
    && InvCallers(s.main, s.cancelled, s.stopping.callers, s.stopping.once)
    && InvSeen(c, s.stopping.seen, s.startGroups, s.reader, s.stopping.once)
    && InvStops(c, s.stopping.once, s.stopping.seen, s.stopping.stops)
    && InvCalls(s.stopping.stops, s.stopping.calls)
  }

  ghost predicate Inv(c: Config, s: State) {
    SameKeys(c, s) && InvRun(c, s) && InvErrors(c, s) && InvStopping(c, s)
  }

  lemma InitInv(c: Config)
    requires ValidConfig(c)
    ensures Inv(c, Init(c))
  {
    InitRun(c);
    InitErrors(c);
    InitStopping(c);
  }

  lemma InitRun(c: Config)
    requires ValidConfig(c)
    ensures SameKeys(c, Init(c)) && InvRun(c, Init(c))
  {
    hide ValidConfig;
    assert ActiveServices(Init(c).pool.svc) == {};
  }

  lemma InitErrors(c: Config)
    ensures InvErrors(c, Init(c))
  {
  }

  lemma InitStopping(c: Config)
    ensures InvStopping(c, Init(c))
  {
  }

  // ---------------------------------------------------------------- Run's steps

  lemma ActiveAdded(svc: map<Name, ServicePc>, n: Name, pc: ServicePc)
    requires n in svc && svc[n] == Idle && pc != Idle && pc != Gone
    ensures |ActiveServices(svc[n := pc])| == |ActiveServices(svc)| + 1
  {
    assert ActiveServices(svc[n := pc]) == ActiveServices(svc) + {n};
  }

  lemma ActiveMoved(svc: map<Name, ServicePc>, n: Name, pc: ServicePc)
    requires n in svc && svc[n] != Idle && svc[n] != Gone && pc != Idle
    ensures |ActiveServices(svc[n := pc])| == |ActiveServices(svc)| - if pc == Gone then 1 else 0
  {
    if pc == Gone {
      assert ActiveServices(svc[n := pc]) == ActiveServices(svc) - {n};
    } else {
      assert ActiveServices(svc[n := pc]) == ActiveServices(svc);
    }
  }

  lemma SomeGroup(c: Config)
    requires ValidConfig(c) && |c.traits| > 0 && !c.cyclic
    ensures |c.groups| > 0
  {
  }

  lemma SpawnKeeps(c: Config, p: Pool, reported: seq<Failure>, g: nat, j: nat)
    requires ValidConfig(c) && g < |c.groups| && j < |c.groups[g]| && p.svc.Keys == c.traits.Keys && !c.cyclic
    requires InvLaunched(c, p.svc, Slot(g, j)) && InvDrained(c, p.svc, Slot(g, 0))
    requires InvWaitGroup(p) && InvAttempts(c, p) && InvReported(c, p, reported)
    ensures var q := Spawn(p, c.groups[g][j]);
            InvLaunched(c, q.svc, Slot(g, j + 1)) && InvDrained(c, q.svc, Slot(g, 0))
            && InvWaitGroup(q) && InvAttempts(c, q) && InvReported(c, q, reported)
            && q.svc.Keys == p.svc.Keys
  {
    SpawnKeepsPlaces(c, p, g, j);
    var n := c.groups[g][j];
    assert n in p.svc && p.svc[n] == Idle;
    hide ValidConfig, InvLaunched, InvDrained;
    SpawnKeepsCounts(c, p, n, reported);
  }

  lemma SpawnKeepsPlaces(c: Config, p: Pool, g: nat, j: nat)
    requires ValidConfig(c) && g < |c.groups| && j < |c.groups[g]| && p.svc.Keys == c.traits.Keys && !c.cyclic
    requires InvLaunched(c, p.svc, Slot(g, j)) && InvDrained(c, p.svc, Slot(g, 0))
    ensures var n, q := c.groups[g][j], Spawn(p, c.groups[g][j]);
            n in p.svc && p.svc[n] == Idle && q.svc.Keys == p.svc.Keys
            && InvLaunched(c, q.svc, Slot(g, j + 1)) && InvDrained(c, q.svc, Slot(g, 0))
  {
    BeforeNext(c, g, j);
    assert c.groups[g][j] in p.svc;
    hide ValidConfig;
  }

  lemma SpawnKeepsCounts(c: Config, p: Pool, n: Name, reported: seq<Failure>)
    requires n in p.svc && p.svc[n] == Idle
    requires InvWaitGroup(p) && InvAttempts(c, p) && InvReported(c, p, reported)
    ensures var q := Spawn(p, n); InvWaitGroup(q) && InvAttempts(c, q) && InvReported(c, q, reported)
  {
    ActiveAdded(p.svc, n, Spawned);
  }

  lemma StartKeepsMain(c: Config, s: State, p: bool)
    requires ValidConfig(c) && InStart(s.main) && StartStep(c, s, p).To?
    requires InvMain(c, s.main, s.result, s.cancelSet)
    ensures var t := StartStep(c, s, p).state; InvMain(c, t.main, t.result, t.cancelSet)
  {
    if s.main.LockStart? { SomeGroup(c); }
    hide ValidConfig;
    match s.main {
      case LockStart =>
      case Launch(_, _) =>
      case Drain(_) =>
      case AwaitReady(_, _) =>
      case Record(_) =>
      case UnlockStart =>
    }
  }

  /** The pieces about the service goroutines. */
  ghost predicate InvPool(c: Config, pool: Pool, reported: seq<Failure>, launched: Slot, drained: Slot) {
    && pool.svc.Keys == c.traits.Keys
    && InvLaunched(c, pool.svc, launched) && InvDrained(c, pool.svc, drained)
    && InvWaitGroup(pool) && InvAttempts(c, pool) && InvReported(c, pool, reported)
  }

  /** Except for a launch, a step of the start loop leaves the goroutines alone. */
  lemma StartMoves(c: Config, s: State, p: bool)
    requires InStart(s.main) && StartStep(c, s, p).To? && (s.main.LockStart? ==> |c.groups| > 0)
    requires InvMain(c, s.main, s.result, s.cancelSet)
    ensures var t := StartStep(c, s, p).state;
            && t.result == s.result && t.errCh == s.errCh && t.stopping == s.stopping && t.ready == s.ready
            && t.cancelled == s.cancelled && t.reader == s.reader && t.cancelSet == s.cancelSet
            && t.pool.failures == s.pool.failures
            && (!s.main.Launch? ==>
                  t.pool == s.pool && LaunchedTo(c, t.main, t.result) == LaunchedTo(c, s.main, s.result)
                  && (!s.main.Drain? ==> DrainedTo(c, t.main, t.result) == DrainedTo(c, s.main, s.result)))
            && (!s.main.Drain? && !s.main.AwaitReady? && !s.main.Launch? ==>
                  ReadyTo(c, t.main, t.result) == ReadyTo(c, s.main, s.result))
            && !AfterSelect(t.main)
  {
    hide StillSpawned;
    match s.main {
      case LockStart =>
      case Launch(_, _) =>
      case Drain(_) =>
      case AwaitReady(_, _) =>
      case Record(_) =>
      case UnlockStart =>
    }
  }

  lemma SpawnKeepsPool(c: Config, p: Pool, reported: seq<Failure>, g: nat, j: nat)
    requires ValidConfig(c) && g < |c.groups| && j < |c.groups[g]| && !c.cyclic
    requires InvPool(c, p, reported, Slot(g, j), Slot(g, 0))
    ensures InvPool(c, Spawn(p, c.groups[g][j]), reported, Slot(g, j + 1), Slot(g, 0))
  {
    SpawnKeeps(c, p, reported, g, j);
  }

  lemma GroupLaunched(c: Config, p: Pool, reported: seq<Failure>, g: nat)
    requires ValidConfig(c) && g < |c.groups|
    requires InvPool(c, p, reported, Slot(g, |c.groups[g]|), Slot(g, 0))
    ensures InvPool(c, p, reported, Slot(g + 1, 0), Slot(g, 0))
  {
  }

  lemma GroupDrained(c: Config, p: Pool, reported: seq<Failure>, g: nat)
    requires ValidConfig(c) && g < |c.groups| && !StillSpawned(c.groups[g], p.svc)
    requires InvPool(c, p, reported, Slot(g + 1, 0), Slot(g, 0))
    ensures InvPool(c, p, reported, Slot(g + 1, 0), Slot(g + 1, 0))
  {
  }

  lemma LaunchKeepsPool(c: Config, s: State, p: bool)
    requires ValidConfig(c) && s.main.Launch? && StartStep(c, s, p).To?
    requires InvMain(c, s.main, s.result, s.cancelSet)
    requires InvPool(c, s.pool, s.errCh.reported, Slot(s.main.g, s.main.j), Slot(s.main.g, 0))
    ensures var t := StartStep(c, s, p).state;
            InvPool(c, t.pool, t.errCh.reported, LaunchedTo(c, t.main, t.result), DrainedTo(c, t.main, t.result))
  {
    hide ValidConfig, InvPool, StillSpawned;
    var Launch(g, j) := s.main;
    if j < |c.groups[g]| {
      SpawnKeepsPool(c, s.pool, s.errCh.reported, g, j);
    } else {
      GroupLaunched(c, s.pool, s.errCh.reported, g);
    }
  }

  lemma DrainKeepsPool(c: Config, s: State, p: bool)
    requires ValidConfig(c) && s.main.Drain? && StartStep(c, s, p).To?
    requires InvPool(c, s.pool, s.errCh.reported, Slot(s.main.g + 1, 0), Slot(s.main.g, 0))
    ensures var t := StartStep(c, s, p).state;
            InvPool(c, t.pool, t.errCh.reported, LaunchedTo(c, t.main, t.result), DrainedTo(c, t.main, t.result))
  {
    hide ValidConfig, InvPool, StillSpawned;
    GroupDrained(c, s.pool, s.errCh.reported, s.main.g);
  }

  lemma StartKeepsPool(c: Config, s: State, p: bool)
    requires ValidConfig(c) && InStart(s.main) && StartStep(c, s, p).To? && (s.main.LockStart? ==> |c.groups| > 0)
    requires InvMain(c, s.main, s.result, s.cancelSet)
    requires InvPool(c, s.pool, s.errCh.reported, LaunchedTo(c, s.main, s.result), DrainedTo(c, s.main, s.result))
    ensures var t := StartStep(c, s, p).state;
            InvPool(c, t.pool, t.errCh.reported, LaunchedTo(c, t.main, t.result), DrainedTo(c, t.main, t.result))
  {
    hide ValidConfig, InvPool, StillSpawned, StartStep, InvMain;
    if s.main.Launch? {
      LaunchKeepsPool(c, s, p);
    } else if s.main.Drain? {
      DrainKeepsPool(c, s, p);
    } else {
      StartMoves(c, s, p);
      hide LaunchedTo, DrainedTo;
    }
  }

  lemma AwaitKeepsReady(c: Config, s: State, p: bool)
    requires ValidConfig(c) && s.main.AwaitReady? && StartStep(c, s, p).To?
    requires InvMain(c, s.main, s.result, s.cancelSet)
    requires InvReady(c, s.ready, s.cancelled, Slot(s.main.g, s.main.j))
    ensures var t := StartStep(c, s, p).state; InvReady(c, t.ready, t.cancelled, ReadyTo(c, t.main, t.result))
  {
    var AwaitReady(g, j) := s.main;
    if j < |c.groups[g]| { BeforeNext(c, g, j); } else { BeforeWholeGroup(c, g); }
    hide ValidConfig;
  }

  lemma StartKeepsReady(c: Config, s: State, p: bool)
    requires ValidConfig(c) && InStart(s.main) && StartStep(c, s, p).To? && (s.main.LockStart? ==> |c.groups| > 0)
    requires InvMain(c, s.main, s.result, s.cancelSet)
    requires InvReady(c, s.ready, s.cancelled, ReadyTo(c, s.main, s.result))
    ensures var t := StartStep(c, s, p).state; InvReady(c, t.ready, t.cancelled, ReadyTo(c, t.main, t.result))
  {
    hide ValidConfig, InvReady, StillSpawned, InvMain;
    if s.main.AwaitReady? {
      AwaitKeepsReady(c, s, p);
    } else {
      StartMoves(c, s, p);
      if !s.main.Launch? && !s.main.Drain? { hide StartStep, ReadyTo; }
    }
  }

  lemma StartKeepsGroups(c: Config, s: State, p: bool)
    requires InStart(s.main) && StartStep(c, s, p).To? && (s.main.LockStart? ==> |c.groups| > 0)
    requires InvMain(c, s.main, s.result, s.cancelSet) && InvGroups(c, s.main, s.result, s.startGroups)
    requires InvLock(s.main, s.writer, s.reader, s.stopping.once)
    ensures var t := StartStep(c, s, p).state;
            InvGroups(c, t.main, t.result, t.startGroups) && InvLock(t.main, t.writer, t.reader, s.stopping.once)
            && (s.reader || (c.groups != [] && s.startGroups == c.groups) ==> t.startGroups == s.startGroups)
  {
  }

  lemma StartKeepsCallers(c: Config, s: State, main: MainPc)
    requires InvCallers(s.main, s.cancelled, s.stopping.callers, s.stopping.once)
    requires !AfterSelect(s.main) && !AfterSelect(main)
    ensures InvCallers(main, s.cancelled, s.stopping.callers, s.stopping.once)
  {
  }

  lemma SeenFramed(c: Config, seen: seq<seq<Name>>, g: seq<seq<Name>>, h: seq<seq<Name>>, reader: bool, once: Once)
    requires InvSeen(c, seen, g, reader, once) && (reader || (c.groups != [] && g == c.groups) ==> g == h)
    ensures InvSeen(c, seen, h, reader, once)
  {
  }

  lemma StartKeepsStopping(c: Config, s: State, p: bool)
    requires ValidConfig(c) && InStart(s.main) && StartStep(c, s, p).To?
    requires InvMain(c, s.main, s.result, s.cancelSet) && InvStopping(c, s)
    ensures InvStopping(c, StartStep(c, s, p).state)
  {
    if s.main.LockStart? { SomeGroup(c); }
    StartMoves(c, s, p);
    StartKeepsGroups(c, s, p);
    var t := StartStep(c, s, p).state;
    hide StartStep, ValidConfig, InvMain, InvGroups, InvLock, InvCallers, InvSeen, InvStops, InvCalls;
    StartKeepsCallers(c, s, t.main);
    SeenFramed(c, s.stopping.seen, s.startGroups, t.startGroups, s.reader, s.stopping.once);
  }

  lemma StartKeepsInv(c: Config, s: State, p: bool)
    requires ValidConfig(c) && Inv(c, s) && InStart(s.main) && StartStep(c, s, p).To?
    ensures Inv(c, StartStep(c, s, p).state)
  {
    hide ValidConfig, StillSpawned, InvLaunched, InvDrained, InvReady, InvWaitGroup, InvAttempts, InvReported,
         InvStopping;
    if s.main.LockStart? { SomeGroup(c); }
    StartMoves(c, s, p);
    StartKeepsMain(c, s, p);
    StartKeepsPool(c, s, p);
    StartKeepsReady(c, s, p);
    StartKeepsStopping(c, s, p);
  }

  lemma RunKeepsMain(c: Config, s: State, p: bool)
    requires !InStart(s.main) && RunStep(c, s, p).To?
    requires InvMain(c, s.main, s.result, s.cancelSet)
    ensures var t := RunStep(c, s, p).state; InvMain(c, t.main, t.result, t.cancelSet)
  {
    match s.main {
      case SetCancel =>
      case Resolve =>
      case Select =>
      case DeferredStop =>
      case _ =>
    }
  }

  lemma RunMoves(c: Config, s: State, p: bool)
    requires !InStart(s.main) && RunStep(c, s, p).To?
    requires InvMain(c, s.main, s.result, s.cancelSet)
    ensures var t := RunStep(c, s, p).state;
            && Framed(s, t)
            && LaunchedTo(c, t.main, t.result) == LaunchedTo(c, s.main, s.result)
            && DrainedTo(c, t.main, t.result) == DrainedTo(c, s.main, s.result)
            && ReadyTo(c, t.main, t.result) == ReadyTo(c, s.main, s.result)
  {
    RunKeepsProgress(c, s, p);
    RunFrame(c, s, p);
    hide RunStep, LaunchedTo, DrainedTo, ReadyTo, InvMain;
  }

  /** What no step outside the start loop touches. */
  ghost predicate Framed(s: State, t: State) {
    && t.pool == s.pool && t.ready == s.ready && t.cancelled == s.cancelled
    && t.errCh.reported == s.errCh.reported
    && t.writer == s.writer && t.reader == s.reader && t.startGroups == s.startGroups
    && t.stopping == s.stopping.(callers := t.stopping.callers)
  }

  lemma RunFrame(c: Config, s: State, p: bool)
    requires !InStart(s.main) && RunStep(c, s, p).To?
    ensures Framed(s, RunStep(c, s, p).state)
  {
    MovedFrame(s, RunStep(c, s, p).state.main, s.cancelSet, s.errCh.closed);
    MovedFrame(s, Resolve, true, s.errCh.closed);
    MovedFrame(s, Finished, s.cancelSet, true);
    LeaveFrame(s, ContextDone);
    LeaveFrame(s, NoEnabledServices);
    LeaveFrame(s, OrderFailed);
    if s.errCh.buffer.Some? { TakeFrame(s); }
    hide Framed, Leave;
  }

  lemma MovedFrame(s: State, main: MainPc, cancelSet: bool, closed: bool)
    ensures Framed(s, s.(main := main, cancelSet := cancelSet, errCh := s.errCh.(closed := closed)))
    ensures Framed(s, s.(main := main, cancelSet := cancelSet))
    ensures Framed(s, s.(main := main, errCh := s.errCh.(closed := closed)))
    ensures Framed(s, s.(main := main))
  {
  }

  lemma LeaveFrame(s: State, result: RunResult)
    ensures Framed(s, Leave(s, result))
  {
  }

  /** Taking a failure from the channel only empties the buffer. */
  lemma TakeFrame(s: State)
    requires s.errCh.buffer.Some?
    ensures Framed(s, Leave(s.(errCh := s.errCh.(buffer := None)), ServiceFailed(s.errCh.buffer.value)))
  {
  }

  lemma RunKeepsProgress(c: Config, s: State, p: bool)
    requires !InStart(s.main) && RunStep(c, s, p).To?
    requires InvMain(c, s.main, s.result, s.cancelSet)
    ensures var t := RunStep(c, s, p).state;
            && LaunchedTo(c, t.main, t.result) == LaunchedTo(c, s.main, s.result)
            && DrainedTo(c, t.main, t.result) == DrainedTo(c, s.main, s.result)
            && ReadyTo(c, t.main, t.result) == ReadyTo(c, s.main, s.result)
  {
    match s.main {
      case SetCancel =>
      case Resolve =>
      case Select =>
      case DeferredStop =>
      case _ =>
    }
  }

  lemma RunKeepsChannel(c: Config, s: State, p: bool)
    requires !InStart(s.main) && RunStep(c, s, p).To?
    requires InvMain(c, s.main, s.result, s.cancelSet) && InvChannel(s.main, s.result, s.errCh, s.pool.wg)
    ensures var t := RunStep(c, s, p).state; InvChannel(t.main, t.result, t.errCh, t.pool.wg)
  {
    if s.main.Select? && s.errCh.buffer.Some? { TakenChannel(s.result, s.errCh, s.pool.wg); }
  }

  /** `Run` takes the first report and with it the failure it returns. */
  lemma TakenChannel(result: RunResult, ch: ErrCh, wg: nat)
    requires InvChannel(Select, result, ch, wg) && result == Running && ch.buffer.Some?
    ensures InvChannel(DeferredStop, ServiceFailed(ch.buffer.value), ch.(buffer := None), wg)
  {
  }

  /** Outside the start loop `Run` either leaves for its deferred `Stop` or moves on. */
  lemma RunLeavesOrMoves(c: Config, s: State, p: bool)
    requires !InStart(s.main) && RunStep(c, s, p).To?
    ensures var t := RunStep(c, s, p).state;
            t.cancelled == s.cancelled &&
            if !AfterSelect(s.main) && AfterSelect(t.main) then
              t.main == DeferredStop
              && t.stopping == s.stopping.(callers := s.stopping.callers[Deferred := Entered])
            else
              t.stopping == s.stopping && AfterSelect(t.main) == AfterSelect(s.main)
              && (s.main.DeferredStop? ==> Deferred in s.stopping.callers && s.stopping.callers[Deferred] == Returned)
  {
    match s.main {
      case SetCancel =>
      case Resolve =>
      case Select =>
      case DeferredStop =>
      case _ =>
    }
  }

  lemma RunKeepsCallers(c: Config, s: State, p: bool)
    requires !InStart(s.main) && RunStep(c, s, p).To?
    requires InvCallers(s.main, s.cancelled, s.stopping.callers, s.stopping.once)
    ensures var t := RunStep(c, s, p).state; InvCallers(t.main, t.cancelled, t.stopping.callers, t.stopping.once)
  {
    RunLeavesOrMoves(c, s, p);
    hide RunStep;
    if !AfterSelect(s.main) { LeaveKeepsCallers(s); }
  }

  lemma LeaveKeepsCallers(s: State)
    requires !AfterSelect(s.main)
    requires InvCallers(s.main, s.cancelled, s.stopping.callers, s.stopping.once)
    ensures InvCallers(DeferredStop, s.cancelled, s.stopping.callers[Deferred := Entered], s.stopping.once)
  {
  }

  lemma RunKeepsGroups(c: Config, s: State, p: bool)
    requires !InStart(s.main) && RunStep(c, s, p).To?
    requires InvMain(c, s.main, s.result, s.cancelSet)
    requires InvLock(s.main, s.writer, s.reader, s.stopping.once) && InvGroups(c, s.main, s.result, s.startGroups)
    ensures var t := RunStep(c, s, p).state;
            InvLock(t.main, t.writer, t.reader, t.stopping.once) && InvGroups(c, t.main, t.result, t.startGroups)
  {
  }

  lemma RunKeepsInv(c: Config, s: State, p: bool)
    requires ValidConfig(c) && Inv(c, s) && !InStart(s.main) && RunStep(c, s, p).To?
    ensures Inv(c, RunStep(c, s, p).state)
  {
    hide ValidConfig, RunStep, InvMain, InvLaunched, InvDrained, InvReady, InvWaitGroup, InvAttempts, InvReported,
         InvChannel, InvLock, InvGroups, InvCallers, InvSeen, InvStops, InvCalls;
    RunMoves(c, s, p);
    RunKeepsMain(c, s, p);
    RunKeepsChannel(c, s, p);
    RunKeepsCallers(c, s, p);
    RunKeepsGroups(c, s, p);
  }

  lemma MainKeepsInv(c: Config, s: State, p: bool)
    requires ValidConfig(c) && Inv(c, s) && MainStep(c, s, p).To?
    ensures Inv(c, MainStep(c, s, p).state)
  {
    hide ValidConfig, StartStep, RunStep, Inv;
    if InStart(s.main) { StartKeepsInv(c, s, p); } else { RunKeepsInv(c, s, p); }
  }

  // ---------------------------------------------------------------- service goroutines

  /** What one step of a live goroutine does to the shared state. */
  ghost predicate ServiceMove(c: Config, s: State, n: Name, t: State)
    requires SameKeys(c, s) && n in s.pool.svc
  {
    && n in t.pool.svc && n in t.pool.failures
    && var pc, failed := t.pool.svc[n], t.pool.failures[n];
    && (pc == Gone ==> s.pool.wg > 0)
    && t == s.(pool := t.pool, errCh := t.errCh)
    && t.pool == AfterMove(s.pool, n, pc, failed, t.pool.last)
    && pc != Idle && pc != Spawned && AttemptsFit(c.traits[n], pc, failed)
    && (s.pool.svc[n] == Exiting ==> pc == Gone && failed == s.pool.failures[n])
    && (if s.pool.svc[n].Send? then
          && t.errCh == Report(s.errCh, Failure(n, s.pool.svc[n].error)) && pc == Exiting
          && !c.traits[n].allowedFailure && failed == c.traits[n].maxRetries + 1
        else t.errCh == s.errCh)
  }

  lemma NextFits(t: Traits, cancelled: bool, pc: ServicePc, outcome: Outcome, contextFirst: bool, failures: nat)
    requires AttemptsFit(t, pc, failures) && pc != Idle && pc != Gone
    ensures var next := NextPc(t, cancelled, pc, outcome, contextFirst);
            AttemptsFit(t, next, failures + if pc.Attempt? && outcome.Fails? then 1 else 0)
            && next != Idle && next != Spawned && (next == Gone <==> pc == Exiting) && (pc.Send? ==> next == Exiting)
  {
  }

  lemma ServiceMoves(c: Config, s: State, n: Name, outcome: Outcome, contextFirst: bool)
    requires SameKeys(c, s) && ServiceStep(c, s, n, outcome, contextFirst).To?
    requires AttemptsFit(c.traits[n], s.pool.svc[n], s.pool.failures[n]) && s.pool.wg > 0 && !s.errCh.closed
    ensures s.pool.svc[n] != Idle && s.pool.svc[n] != Gone
    ensures ServiceMove(c, s, n, ServiceStep(c, s, n, outcome, contextFirst).state)
  {
    NextFits(c.traits[n], s.cancelled, s.pool.svc[n], outcome, contextFirst, s.pool.failures[n]);
    hide NextPc;
  }

  lemma MoveKeepsPlaces(c: Config, svc: map<Name, ServicePc>, n: Name, pc: ServicePc, launched: Slot, drained: Slot)
    requires n in svc && svc[n] != Idle && pc != Idle && pc != Spawned
    requires InvLaunched(c, svc, launched) && InvDrained(c, svc, drained)
    ensures InvLaunched(c, svc[n := pc], launched) && InvDrained(c, svc[n := pc], drained)
  {
  }

  lemma MoveKeepsCounts(c: Config, p: Pool, n: Name, pc: ServicePc, failed: nat, last: map<Name, Outcome>,
                        reported: seq<Failure>)
    requires n in p.svc && p.svc[n] != Idle && p.svc[n] != Gone && pc != Idle && (pc == Gone ==> p.wg > 0)
    requires InvWaitGroup(p) && InvAttempts(c, p) && InvReported(c, p, reported)
    requires AttemptsFit(c.traits[n], pc, failed)
    requires p.svc[n] == Exiting ==> pc == Gone && failed == p.failures[n]
    ensures var q := AfterMove(p, n, pc, failed, last);
            InvWaitGroup(q) && InvAttempts(c, q) && InvReported(c, q, reported)
  {
    ActiveMoved(p.svc, n, pc);
  }

  lemma MoveKeepsPool(c: Config, p: Pool, n: Name, pc: ServicePc, failed: nat, last: map<Name, Outcome>,
                      reported: seq<Failure>, launched: Slot, drained: Slot)
    requires n in p.svc && p.svc[n] != Idle && p.svc[n] != Gone && pc != Idle && pc != Spawned
      && (pc == Gone ==> p.wg > 0)
    requires InvPool(c, p, reported, launched, drained) && n in c.traits
    requires AttemptsFit(c.traits[n], pc, failed)
    requires p.svc[n] == Exiting ==> pc == Gone && failed == p.failures[n]
    ensures InvPool(c, AfterMove(p, n, pc, failed, last), reported, launched, drained)
  {
    MoveKeepsPlaces(c, p.svc, n, pc, launched, drained);
    MoveKeepsCounts(c, p, n, pc, failed, last, reported);
    hide InvLaunched, InvDrained, InvWaitGroup, InvAttempts, InvReported, AttemptsFit;
    assert AfterMove(p, n, pc, failed, last).svc == p.svc[n := pc];
  }

  lemma ReportKeepsPool(c: Config, p: Pool, reported: seq<Failure>, launched: Slot, drained: Slot, f: Failure)
    requires InvPool(c, p, reported, launched, drained)
    requires f.service in c.traits && !c.traits[f.service].allowedFailure && p.svc[f.service] == Exiting
    requires p.failures[f.service] == c.traits[f.service].maxRetries + 1
    ensures InvPool(c, p, reported + [f], launched, drained)
  {
  }

  /** The first report fills the buffer; later ones leave it and `Run`'s result alone. */
  lemma ReportKeepsChannel(main: MainPc, result: RunResult, ch: ErrCh, wg: nat, wg': nat, f: Failure)
    requires InvChannel(main, result, ch, wg) && wg > 0 && wg' == wg
    ensures InvChannel(main, result, Report(ch, f), wg')
  {
  }

  lemma LiveIsCounted(p: Pool, n: Name)
    requires InvWaitGroup(p) && n in p.svc && p.svc[n] != Idle && p.svc[n] != Gone
    ensures p.wg > 0
  {
    assert n in ActiveServices(p.svc);
  }

  lemma ServiceKeepsErrors(c: Config, s: State, n: Name, outcome: Outcome, contextFirst: bool)
    requires Inv(c, s) && ServiceStep(c, s, n, outcome, contextFirst).To? && s.pool.wg > 0 && !s.errCh.closed
    ensures var t := ServiceStep(c, s, n, outcome, contextFirst).state;
            InvPool(c, t.pool, t.errCh.reported, LaunchedTo(c, s.main, s.result), DrainedTo(c, s.main, s.result))
            && InvChannel(s.main, s.result, t.errCh, t.pool.wg)
  {
    hide LaunchedTo, DrainedTo, InvMain, InvLaunched, InvDrained, InvReady, InvWaitGroup, InvReported, InvStopping;
    var t := ServiceStep(c, s, n, outcome, contextFirst).state;
    ServiceMoves(c, s, n, outcome, contextFirst);
    hide ServiceStep, InvAttempts, AttemptsFit;
    MoveKeepsPool(c, s.pool, n, t.pool.svc[n], t.pool.failures[n], t.pool.last, s.errCh.reported,
                  LaunchedTo(c, s.main, s.result), DrainedTo(c, s.main, s.result));
    if s.pool.svc[n].Send? {
      var f := Failure(n, s.pool.svc[n].error);
      ReportKeepsPool(c, t.pool, s.errCh.reported, LaunchedTo(c, s.main, s.result), DrainedTo(c, s.main, s.result), f);
      ReportKeepsChannel(s.main, s.result, s.errCh, s.pool.wg, t.pool.wg, f);
    }
  }

  lemma ServiceKeepsInv(c: Config, s: State, n: Name, outcome: Outcome, contextFirst: bool)
    requires ValidConfig(c) && Inv(c, s) && ServiceStep(c, s, n, outcome, contextFirst).To?
    ensures Inv(c, ServiceStep(c, s, n, outcome, contextFirst).state)
  {
    hide ValidConfig, LaunchedTo, DrainedTo, ReadyTo, InvMain, InvLaunched, InvDrained, InvReady, InvReported,
         InvStopping;
    LiveIsCounted(s.pool, n);
    hide InvWaitGroup;
    ServiceKeepsErrors(c, s, n, outcome, contextFirst);
    ServiceMoves(c, s, n, outcome, contextFirst);
    hide ServiceStep, InvAttempts, InvChannel, AttemptsFit;
    StoppingFramed(c, s, ServiceStep(c, s, n, outcome, contextFirst).state);
  }

  /** The shutdown side does not look at the goroutines or the channel. */
  lemma StoppingFramed(c: Config, s: State, t: State)
    requires InvStopping(c, s) && t == s.(pool := t.pool, errCh := t.errCh)
    ensures InvStopping(c, t)
  {
  }

  // ---------------------------------------------------------------- the environment and the callers of Stop

  lemma EnvironmentKeepsInv(c: Config, s: State, a: Action)
    requires Inv(c, s) && ByEnvironment(a) && Step(c, s, a).To?
    ensures Inv(c, Step(c, s, a).state)
  {
    hide LaunchedTo, DrainedTo, ReadyTo, InvMain, InvLaunched, InvDrained, InvWaitGroup, InvErrors, InvLock, InvGroups,
         InvSeen, InvStops, InvCalls;
    ErrorsFramed(c, s, Step(c, s, a).state);
  }

  lemma CallerMoves(s: State, id: CallerId)
    requires CallerStep(s, id).To?
    ensures id in s.stopping.callers
    ensures var t := CallerStep(s, id).state;
            && t == s.(stopping := t.stopping, cancelled := t.cancelled) && (s.cancelled ==> t.cancelled)
            && t.stopping == s.stopping.(callers := t.stopping.callers, once := t.stopping.once)
            && (t.stopping.once == s.stopping.once
                || (s.stopping.once == Fresh && t.stopping.once == Claimed(id, LockGroups)))
  {
  }

  lemma CallerKeepsCallers(s: State, id: CallerId)
    requires CallerStep(s, id).To? && InvCallers(s.main, s.cancelled, s.stopping.callers, s.stopping.once)
    requires s.main.SetCancel? || s.cancelSet
    ensures var t := CallerStep(s, id).state; InvCallers(t.main, t.cancelled, t.stopping.callers, t.stopping.once)
  {
  }

  lemma ClaimKeepsStops(c: Config, s: State, once: Once)
    requires InvSeen(c, s.stopping.seen, s.startGroups, s.reader, s.stopping.once)
    requires InvStops(c, s.stopping.once, s.stopping.seen, s.stopping.stops)
    requires InvLock(s.main, s.writer, s.reader, s.stopping.once)
    requires once == s.stopping.once || (s.stopping.once == Fresh && once.Claimed? && once.body == LockGroups)
    ensures InvSeen(c, s.stopping.seen, s.startGroups, s.reader, once)
    ensures InvStops(c, once, s.stopping.seen, s.stopping.stops)
    ensures InvLock(s.main, s.writer, s.reader, once)
  {
  }

  lemma CallerKeepsInv(c: Config, s: State, id: CallerId)
    requires Inv(c, s) && CallerStep(s, id).To?
    ensures Inv(c, CallerStep(s, id).state)
  {
    hide LaunchedTo, DrainedTo, ReadyTo, InvLaunched, InvDrained, InvWaitGroup, InvErrors,
         InvLock, InvGroups, InvCallers, InvSeen, InvStops, InvCalls;
    CallerMoves(s, id);
    assert s.main.SetCancel? || s.cancelSet;
    CallerKeepsCallers(s, id);
    ClaimKeepsStops(c, s, CallerStep(s, id).state.stopping.once);
    hide CallerStep, InvMain;
    assert InvErrors(c, CallerStep(s, id).state) by { ErrorsFramed(c, s, CallerStep(s, id).state); }
  }

  lemma ErrorsFramed(c: Config, s: State, t: State)
    requires InvErrors(c, s) && t.main == s.main && t.result == s.result && t.pool == s.pool && t.errCh == s.errCh
    ensures InvErrors(c, t)
  {
  }

  // ---------------------------------------------------------------- the once-body

  lemma BodyMoves(s: State)
    requires BodyStep(s).To?
    ensures s.stopping.once.Claimed?
    ensures var t := BodyStep(s).state;
            && t == s.(reader := t.reader, stopping := t.stopping)
            && t.stopping == s.stopping.(once := t.stopping.once, seen := t.stopping.seen, stops := t.stopping.stops)
            && (t.stopping.once.Over? || (t.stopping.once.Claimed? && t.stopping.once.owner == s.stopping.once.owner))
  {
    hide StillStopping;
    match s.stopping.once.body {
      case LockGroups =>
      case Ask(_, _) =>
      case Join(_) =>
      case UnlockGroups =>
    }
  }

  lemma BodyKeepsCallers(s: State)
    requires BodyStep(s).To? && InvCallers(s.main, s.cancelled, s.stopping.callers, s.stopping.once)
    ensures InvCallers(s.main, s.cancelled, s.stopping.callers, BodyStep(s).state.stopping.once)
  {
    BodyMoves(s);
    hide BodyStep;
  }

  /** A start lock that is free shows either no group or all of them. */
  lemma FreeLockShowsAllOrNothing(c: Config, s: State)
    requires InvLock(s.main, s.writer, s.reader, s.stopping.once) && InvGroups(c, s.main, s.result, s.startGroups)
    requires !s.writer
    ensures s.startGroups == [] || s.startGroups == c.groups
  {
  }

  lemma BodyKeepsSeen(c: Config, s: State)
    requires BodyStep(s).To? && InvLock(s.main, s.writer, s.reader, s.stopping.once)
    requires InvGroups(c, s.main, s.result, s.startGroups)
    requires InvSeen(c, s.stopping.seen, s.startGroups, s.reader, s.stopping.once)
    ensures var t := BodyStep(s).state;
            && InvLock(t.main, t.writer, t.reader, t.stopping.once)
            && InvSeen(c, t.stopping.seen, t.startGroups, t.reader, t.stopping.once)
  {
    if !s.writer { FreeLockShowsAllOrNothing(c, s); }
    hide InvGroups, StillStopping;
    match s.stopping.once.body {
      case LockGroups =>
      case Ask(_, _) =>
      case Join(_) =>
      case UnlockGroups =>
    }
  }

  lemma AskOne(c: Config, owner: CallerId, seen: seq<seq<Name>>, stops: map<Name, StopCall>, left: nat, j: nat)
    requires ValidConfig(c) && seen == c.groups && 0 < left <= |seen| && j < |seen[left - 1]|
    requires stops.Keys == c.traits.Keys && InvStops(c, Claimed(owner, Ask(left, j)), seen, stops)
    ensures seen[left - 1][j] in stops && !stops[seen[left - 1][j]].joined && stops[seen[left - 1][j]].pc == NotAsked
    ensures InvStops(c, Claimed(owner, Ask(left, j + 1)), seen, stops[seen[left - 1][j] := StopCall(Asked, false)])
  {
    var x := seen[left - 1][j];
    assert c.groups[left - 1][j] == x && c.slots[x] == Slot(left - 1, j);
    var stops' := stops[x := StopCall(Asked, false)];
    forall n | n in stops' && n != x
      ensures IsAsked(c, n, Slot(left, j + 1)) == IsAsked(c, n, Slot(left, j))
    {
      assert n in c.slots ==> c.groups[c.slots[n].group][c.slots[n].index] == n;
    }
  }

  lemma AskedGroup(c: Config, owner: CallerId, seen: seq<seq<Name>>, stops: map<Name, StopCall>, left: nat)
    requires ValidConfig(c) && seen == c.groups && 0 < left <= |seen|
    requires InvStops(c, Claimed(owner, Ask(left, |seen[left - 1]|)), seen, stops)
    ensures InvStops(c, Claimed(owner, Join(left)), seen, stops)
  {
    forall n | n in stops
      ensures IsAsked(c, n, Slot(left, |seen[left - 1]|)) == IsAsked(c, n, Slot(left - 1, 0))
    {
      if n in c.slots { assert c.slots[n].group < |c.groups|; }
    }
  }

  lemma JoinedGroup(c: Config, owner: CallerId, seen: seq<seq<Name>>, stops: map<Name, StopCall>, left: nat)
    requires ValidConfig(c) && seen == c.groups && 0 < left <= |seen| && !StillStopping(seen[left - 1], stops)
    requires InvStops(c, Claimed(owner, Join(left)), seen, stops)
    ensures InvStops(c, Claimed(owner, Ask(left - 1, 0)), seen, stops)
  {
    forall n | n in stops && n in c.slots && c.slots[n].group == left - 1
      ensures stops[n].joined
    {
      assert c.groups[left - 1][c.slots[n].index] == n;
      assert n in seen[left - 1];
    }
  }

  lemma FirstAsk(c: Config, owner: CallerId, seen: seq<seq<Name>>, stops: map<Name, StopCall>)
    requires ValidConfig(c) && (seen == [] || seen == c.groups)
    requires InvStops(c, Claimed(owner, LockGroups), [], stops)
    ensures InvStops(c, Claimed(owner, Ask(|seen|, 0)), seen, stops)
  {
  }

  lemma AskKeepsStops(c: Config, s: State)
    requires ValidConfig(c) && SameKeys(c, s) && BodyStep(s).To? && s.stopping.once.body.Ask? && s.reader
    requires InvSeen(c, s.stopping.seen, s.startGroups, s.reader, s.stopping.once)
    requires InvStops(c, s.stopping.once, s.stopping.seen, s.stopping.stops)
      && InvCalls(s.stopping.stops, s.stopping.calls)
    ensures var t := BodyStep(s).state;
            t.stopping.stops.Keys == s.stopping.stops.Keys
            && InvStops(c, t.stopping.once, t.stopping.seen, t.stopping.stops)
            && InvCalls(t.stopping.stops, s.stopping.calls)
  {
    hide ValidConfig, InvStops, InvCalls;
    var st := s.stopping;
    var Ask(left, j) := st.once.body;
    if left == 0 {
      LastAsked(c, st);
    } else if j < |s.startGroups[left - 1]| {
      AskOne(c, st.once.owner, st.seen, st.stops, left, j);
      NotCalledYet(st.stops, st.calls, s.startGroups[left - 1][j]);
    } else {
      AskedGroup(c, st.once.owner, st.seen, st.stops, left);
    }
  }

  lemma NotCalledYet(stops: map<Name, StopCall>, calls: seq<Name>, n: Name)
    requires InvCalls(stops, calls) && n in stops && stops[n].pc == NotAsked
    ensures InvCalls(stops[n := StopCall(Asked, false)], calls)
  {
  }

  lemma BodyKeepsStops(c: Config, s: State)
    requires ValidConfig(c) && SameKeys(c, s) && BodyStep(s).To? && InvLock(s.main, s.writer, s.reader, s.stopping.once)
    requires InvGroups(c, s.main, s.result, s.startGroups)
    requires InvSeen(c, s.stopping.seen, s.startGroups, s.reader, s.stopping.once)
    requires InvStops(c, s.stopping.once, s.stopping.seen, s.stopping.stops)
      && InvCalls(s.stopping.stops, s.stopping.calls)
    ensures var t := BodyStep(s).state;
            t.stopping.stops.Keys == s.stopping.stops.Keys
            && InvStops(c, t.stopping.once, t.stopping.seen, t.stopping.stops)
            && InvCalls(t.stopping.stops, s.stopping.calls)
  {
    hide ValidConfig, InvGroups, InvStops, InvCalls, BodyStep, SameKeys;
    BodyMoves(s);
    match s.stopping.once.body {
      case LockGroups => LockKeepsStops(c, s);
      case Ask(_, _) => AskKeepsStops(c, s);
      case Join(_) => JoinKeepsStops(c, s);
      case UnlockGroups => UnlockKeepsStops(c, s);
    }
  }

  lemma LockKeepsStops(c: Config, s: State)
    requires ValidConfig(c) && BodyStep(s).To? && s.stopping.once.body.LockGroups?
    requires InvLock(s.main, s.writer, s.reader, s.stopping.once) && InvGroups(c, s.main, s.result, s.startGroups)
    requires InvSeen(c, s.stopping.seen, s.startGroups, s.reader, s.stopping.once)
    requires InvStops(c, s.stopping.once, s.stopping.seen, s.stopping.stops)
    ensures var t := BodyStep(s).state;
            t.stopping.stops == s.stopping.stops && InvStops(c, t.stopping.once, t.stopping.seen, t.stopping.stops)
  {
    hide ValidConfig, InvGroups, InvStops;
    FreeLockShowsAllOrNothing(c, s);
    FirstAsk(c, s.stopping.once.owner, s.startGroups, s.stopping.stops);
  }

  lemma JoinKeepsStops(c: Config, s: State)
    requires ValidConfig(c) && BodyStep(s).To? && s.stopping.once.body.Join? && s.reader
    requires InvSeen(c, s.stopping.seen, s.startGroups, s.reader, s.stopping.once)
    requires InvStops(c, s.stopping.once, s.stopping.seen, s.stopping.stops)
    ensures var t := BodyStep(s).state;
            t.stopping.stops == s.stopping.stops && InvStops(c, t.stopping.once, t.stopping.seen, t.stopping.stops)
  {
    hide ValidConfig, InvStops, StillStopping;
    JoinedGroup(c, s.stopping.once.owner, s.stopping.seen, s.stopping.stops, s.stopping.once.body.left);
  }

  lemma UnlockKeepsStops(c: Config, s: State)
    requires BodyStep(s).To? && s.stopping.once.body.UnlockGroups?
    requires InvStops(c, s.stopping.once, s.stopping.seen, s.stopping.stops)
    ensures var t := BodyStep(s).state;
            t.stopping.stops == s.stopping.stops && InvStops(c, t.stopping.once, t.stopping.seen, t.stopping.stops)
  {
    hide InvStops;
    LastAsked(c, s.stopping);
  }

  lemma LastAsked(c: Config, st: Stopping)
    requires InvStops(c, st.once, st.seen, st.stops)
    requires st.once.Claimed? && (st.once.body == Ask(0, 0) || st.once.body == UnlockGroups)
    ensures InvStops(c, Claimed(st.once.owner, UnlockGroups), st.seen, st.stops) && InvStops(c, Over, st.seen, st.stops)
  {
  }

  lemma BodyKeepsInv(c: Config, s: State)
    requires ValidConfig(c) && Inv(c, s) && BodyStep(s).To?
    ensures Inv(c, BodyStep(s).state)
  {
    hide ValidConfig, LaunchedTo, DrainedTo, ReadyTo, InvMain, InvLaunched, InvDrained, InvReady, InvWaitGroup,
         InvErrors,
         InvLock, InvGroups, InvCallers, InvSeen, InvStops, InvCalls, BodyStep;
    BodyMoves(s);
    BodyKeepsCallers(s);
    BodyKeepsSeen(c, s);
    BodyKeepsStops(c, s);
    ErrorsFramed(c, s, BodyStep(s).state);
  }

  lemma StopKeepsStops(c: Config, st: Stopping, n: Name, st': Stopping)
    requires InvStops(c, st.once, st.seen, st.stops) && InvCalls(st.stops, st.calls)
    requires StopStep(st, n) == StopTo(st') || JoinStep(st, n, true) == StopTo(st')
      || JoinStep(st, n, false) == StopTo(st')
    ensures InvStops(c, st.once, st.seen, st'.stops) && InvCalls(st'.stops, st'.calls)
    ensures st'.stops.Keys == st.stops.Keys && st' == st.(stops := st'.stops, calls := st'.calls)
  {
  }

  lemma StopKeepsInv(c: Config, s: State, n: Name, st': Stopping)
    requires Inv(c, s)
    requires StopStep(s.stopping, n) == StopTo(st') || JoinStep(s.stopping, n, true) == StopTo(st')
      || JoinStep(s.stopping, n, false) == StopTo(st')
    ensures Inv(c, s.(stopping := st'))
  {
    hide StopStep, JoinStep;
    StopKeepsStops(c, s.stopping, n, st');
    hide LaunchedTo, DrainedTo, ReadyTo, InvMain, InvLaunched, InvDrained, InvReady, InvWaitGroup, InvErrors,
         InvLock, InvGroups, InvCallers, InvSeen, InvStops, InvCalls;
    ErrorsFramed(c, s, s.(stopping := st'));
  }

  // ---------------------------------------------------------------- every run

  lemma StepKeepsInv(c: Config, s: State, a: Action)
    requires ValidConfig(c) && Inv(c, s) && Step(c, s, a).To?
    ensures Inv(c, Step(c, s, a).state)
  {
    hide ValidConfig, Inv, MainStep, ServiceStep, CallerStep, BodyStep, StopStep, JoinStep;
    match a {
      case Main(p) => MainKeepsInv(c, s, p);
      case Service(n, outcome, contextFirst) => ServiceKeepsInv(c, s, n, outcome, contextFirst);
      case Caller(id) => CallerKeepsInv(c, s, id);
      case Body => BodyKeepsInv(c, s);
      case StopGoroutine(n) => StopKeepsInv(c, s, n, StopStep(s.stopping, n).stopping);
      case StopJoined(n, timedOut) => StopKeepsInv(c, s, n, JoinStep(s.stopping, n, timedOut).stopping);
      case _ => EnvironmentKeepsInv(c, s, a);
    }
  }

  lemma {:induction false} RunKeepsInvariant(c: Config, s: State, acts: seq<Action>, t: State)
    requires ValidConfig(c) && Inv(c, s) && Runs(c, s, acts, t)
    ensures Inv(c, t)
    decreases |acts|
  {
    hide ValidConfig, Inv, Step;
    if acts != [] {
      StepKeepsInv(c, s, acts[0]);
      RunKeepsInvariant(c, Step(c, s, acts[0]).state, acts[1..], t);
    }
  }

  lemma ReachableInv(c: Config, s: State)
    requires ValidConfig(c) && Reachable(c, s)
    ensures Inv(c, s)
  {
    InitInv(c);
    var acts :| Runs(c, Init(c), acts, s);
    RunKeepsInvariant(c, Init(c), acts, s);
  }
}

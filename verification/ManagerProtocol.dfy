/** The service manager's start, fail and stop protocol as a step relation.

    One `State` holds what the goroutines share: the run context, the capacity-1 error
    channel, the wait group, the start lock, the once cell and the recorded start groups.
    Any number of service goroutines and `Stop` callers interleave; every action is one
    atomic step of one of them or of the environment.
 */
module ManagerProtocol {
  import opened Common
  import opened DependencyOrder
  import opened StopCallers

  /** What a service's optional interfaces answer. */
  datatype Traits = Traits(allowedFailure: bool, readyNotifier: bool, maxRetries: nat)

  /** What `Run` works on: the instantiated services, whether their order is cyclic, the
      groups otherwise, and the group and position of each service in them. */
  datatype Slot = Slot(group: nat, index: nat)
  datatype Config = Config(traits: map<Name, Traits>, cyclic: bool, groups: seq<seq<Name>>, slots: map<Name, Slot>)

  /** The groups list each service once, at its slot. */
  ghost predicate ValidConfig(c: Config) {
    && (c.cyclic ==> c.groups == [])
    && (!c.cyclic ==> c.slots.Keys == c.traits.Keys)
    && (c.cyclic ==> c.slots == map[])
    && (forall k {:trigger c.groups[k]} :: 0 <= k < |c.groups| ==> c.groups[k] != [])
    && (forall k, i {:trigger c.groups[k][i]} :: 0 <= k < |c.groups| && 0 <= i < |c.groups[k]| ==>
          c.groups[k][i] in c.slots && c.slots[c.groups[k][i]] == Slot(k, i))
    && (forall n {:trigger c.slots[n]} :: n in c.slots ==>
          c.slots[n].group < |c.groups| && c.slots[n].index < |c.groups[c.slots[n].group]|
          && c.groups[c.slots[n].group][c.slots[n].index] == n)
  }

  datatype Failure = Failure(service: Name, error: Error)

  datatype RunResult = Running | ContextDone | NoEnabledServices | OrderFailed | ServiceFailed(failure: Failure)

  /** Where `Run` is; `g` is a group index and `j` a position in it. */
  datatype MainPc =
    | SetCancel | Resolve | LockStart
    | Launch(g: nat, j: nat) | Drain(g: nat) | AwaitReady(g: nat, j: nat) | Record(g: nat)
    | UnlockStart | Select | DeferredStop | AwaitServices | CloseErrCh | Finished

  /** Where a service goroutine is. `attempt` counts from zero. */
  datatype ServicePc =
    | Idle | Spawned | Attempt(attempt: nat) | Failed(attempt: nat, error: Error)
    | Delay(attempt: nat) | Handle(error: Error) | Send(error: Error) | Exiting | Gone

  /** The once-body of `Stop`; `left` groups are still to be stopped. */
  datatype BodyPc = LockGroups | Ask(left: nat, j: nat) | Join(left: nat) | UnlockGroups
  datatype Once = Fresh | Claimed(owner: CallerId, body: BodyPc) | Over

  /** The goroutine that calls `service.Stop`, and whether the one waiting for it (or for
      its timer) has gone on. */
  datatype StopPc = NotAsked | Asked | InStop | Stopped
  datatype StopCall = StopCall(pc: StopPc, joined: bool)

  /** How a run of a service ends. */
  datatype Outcome = Succeeds | Fails(error: Error)

  /** The service goroutines, the runs of each that failed, how the last run of each ended, and the
      wait group's counter. */
  datatype Pool = Pool(svc: map<Name, ServicePc>, failures: map<Name, nat>, last: map<Name, Outcome>, wg: nat)

  /** The error channel and every report that reached its send, in order. */
  datatype ErrCh = ErrCh(buffer: Option<Failure>, closed: bool, panicked: bool, reported: seq<Failure>)

  /** The `Stop` callers, the once cell, the groups its body found, the stop goroutines and
      the calls of `service.Stop`, in order. */
  datatype Stopping = Stopping(callers: map<CallerId, CallerPc>, once: Once, seen: seq<seq<Name>>,
                               stops: map<Name, StopCall>, calls: seq<Name>)

  datatype State = State(
    main: MainPc, result: RunResult, pool: Pool, errCh: ErrCh,
    ready: set<Name>, cancelSet: bool, cancelled: bool,
    writer: bool, reader: bool, startGroups: seq<seq<Name>>, stopping: Stopping)

  datatype Action =
    | CancelParent
    | SignalReady(name: Name)
    | CallStop(id: nat)
    | Main(preferContext: bool)
    | Service(name: Name, outcome: Outcome, contextFirst: bool)
    | Caller(caller: CallerId)
    | Body
    | StopGoroutine(name: Name)
    | StopJoined(name: Name, timedOut: bool)

  predicate ByEnvironment(a: Action) {
    a.CancelParent? || a.SignalReady? || a.CallStop?
  }

  function Init(c: Config): State {
    State(SetCancel, Running,
          Pool(map n | n in c.traits :: Idle, map n | n in c.traits :: 0, map[], 0),
          ErrCh(None, false, false, []),
          {}, false, false,
          false, false, [],
          Stopping(map[], Fresh, [], map n | n in c.traits :: StopCall(NotAsked, false), []))
  }

  // ---------------------------------------------------------------- steps

  /** The state a step leads to, if the step can be taken. */
  datatype Move = Blocked | To(state: State)
  datatype StopMove = StopBlocked | StopTo(stopping: Stopping)

  function Leave(s: State, result: RunResult): State {
    s.(main := DeferredStop, result := result,
       stopping := s.stopping.(callers := s.stopping.callers[Deferred := Entered]))
  }

  function Spawn(p: Pool, n: Name): Pool {
    p.(svc := p.svc[n := Spawned], wg := p.wg + 1)
  }

  predicate StillSpawned(group: seq<Name>, svc: map<Name, ServicePc>) {
    exists n :: n in group && n in svc && svc[n] == Spawned
  }

  /** A step of `Run` while it starts the groups under the start lock. Where the ready wait
      has two ready cases, `preferContext` picks. */
  function StartStep(c: Config, s: State, preferContext: bool): Move {
    match s.main
    case LockStart =>
      if s.writer || s.reader then Blocked
      else To(s.(main := if |c.groups| > 0 then Launch(0, 0) else UnlockStart, writer := true))
    case Launch(g, j) =>
      if g >= |c.groups| then Blocked
      else if j >= |c.groups[g]| then To(s.(main := Drain(g)))
      else To(s.(main := Launch(g, j + 1), pool := Spawn(s.pool, c.groups[g][j])))
    case Drain(g) =>
      if g >= |c.groups| || StillSpawned(c.groups[g], s.pool.svc) then Blocked
      else To(s.(main := AwaitReady(g, 0)))
    case AwaitReady(g, j) =>
      if g >= |c.groups| then Blocked
      else if j >= |c.groups[g]| then To(s.(main := Record(g)))
      else if c.groups[g][j] !in c.traits || !c.traits[c.groups[g][j]].readyNotifier then
        To(s.(main := AwaitReady(g, j + 1)))
      else if s.cancelled && preferContext then To(s.(main := Record(g)))
      else if c.groups[g][j] in s.ready then To(s.(main := AwaitReady(g, j + 1)))
      else Blocked
    case Record(g) =>
      if g >= |c.groups| then Blocked
      else To(s.(main := if g + 1 < |c.groups| then Launch(g + 1, 0) else UnlockStart,
                   startGroups := s.startGroups + [c.groups[g]]))
    case UnlockStart => To(s.(main := Select, writer := false))
    case _ => Blocked
  }

  /** A step of `Run` before and after that; `preferContext` picks at its select. */
  function RunStep(c: Config, s: State, preferContext: bool): Move {
    match s.main
    case SetCancel => To(s.(main := Resolve, cancelSet := true))
    case Resolve =>
      if |c.traits| == 0 then To(Leave(s, NoEnabledServices))
      else if c.cyclic then To(Leave(s, OrderFailed))
      else To(s.(main := LockStart))
    case Select =>
      if s.cancelled && preferContext then To(Leave(s, ContextDone))
      else if s.errCh.buffer.Some? then
        To(Leave(s.(errCh := s.errCh.(buffer := None)), ServiceFailed(s.errCh.buffer.value)))
      else Blocked
    case DeferredStop =>
      if Deferred in s.stopping.callers && s.stopping.callers[Deferred] == Returned
      then To(s.(main := AwaitServices)) else Blocked
    case AwaitServices => if s.pool.wg == 0 then To(s.(main := CloseErrCh)) else Blocked
    case CloseErrCh => To(s.(main := Finished, errCh := s.errCh.(closed := true)))
    case _ => Blocked
  }

  predicate InStart(pc: MainPc) {
    pc.LockStart? || pc.Launch? || pc.Drain? || pc.AwaitReady? || pc.Record? || pc.UnlockStart?
  }

  function MainStep(c: Config, s: State, preferContext: bool): Move {
    if InStart(s.main) then StartStep(c, s, preferContext) else RunStep(c, s, preferContext)
  }

  /** The non-blocking send: kept if the buffer is free, logged and dropped if not. */
  function Report(ch: ErrCh, f: Failure): ErrCh {
    ch.(reported := ch.reported + [f], buffer := if ch.buffer.None? then Some(f) else ch.buffer)
  }

  predicate SameKeys(c: Config, s: State) {
    s.pool.svc.Keys == s.pool.failures.Keys == s.stopping.stops.Keys == c.traits.Keys
  }

  /** Where a service goroutine goes next: the retry loop, then the report. */
  function NextPc(t: Traits, cancelled: bool, pc: ServicePc, outcome: Outcome, contextFirst: bool): ServicePc {
    match pc
    case Idle => Idle
    case Spawned => Attempt(0)
    case Attempt(k) => if outcome.Succeeds? then Exiting else Failed(k, outcome.error)
    case Failed(k, e) => if cancelled then Exiting else if k >= t.maxRetries then Handle(e) else Delay(k)
    case Delay(k) => if cancelled && contextFirst then Exiting else Attempt(k + 1)
    case Handle(e) => if t.allowedFailure then Exiting else Send(e)
    case Send(_) => Exiting
    case Exiting => Gone
    case Gone => Gone
  }

  /** The pool once goroutine `n` has moved; leaving for good is `wg.Done`. */
  function AfterMove(p: Pool, n: Name, pc: ServicePc, failed: nat, last: map<Name, Outcome>): Pool
    requires pc == Gone ==> p.wg > 0
  {
    Pool(p.svc[n := pc], p.failures[n := failed], last, p.wg - if pc == Gone then 1 else 0)
  }

  /** One step of a service goroutine. A send on a closed channel panics. */
  function ServiceStep(c: Config, s: State, n: Name, outcome: Outcome, contextFirst: bool): Move
    requires SameKeys(c, s)
  {
    if n !in s.pool.svc || s.pool.svc[n] == Idle || s.pool.svc[n] == Gone then Blocked
    else if s.pool.svc[n] == Exiting && s.pool.wg == 0 then Blocked
    else if s.pool.svc[n].Send? && s.errCh.closed then To(s.(errCh := s.errCh.(panicked := true)))
    else
      var pc := s.pool.svc[n];
      var failed := s.pool.failures[n] + if pc.Attempt? && outcome.Fails? then 1 else 0;
      var last := if pc.Attempt? then s.pool.last[n := outcome] else s.pool.last;
      To(s.(pool := AfterMove(s.pool, n, NextPc(c.traits[n], s.cancelled, pc, outcome, contextFirst), failed, last),
            errCh := if pc.Send? then Report(s.errCh, Failure(n, pc.error)) else s.errCh))
  }

  function SetCaller(st: Stopping, id: CallerId, pc: CallerPc): Stopping {
    st.(callers := st.callers[id := pc])
  }

  function CallerStep(s: State, id: CallerId): Move {
    var st := s.stopping;
    if id !in st.callers then Blocked
    else match st.callers[id]
      case Entered => To(s.(stopping := SetCaller(st, id, AtOnce), cancelled := s.cancelled || s.cancelSet))
      case AtOnce =>
        (match st.once
         case Fresh => To(s.(stopping := SetCaller(st, id, InBody).(once := Claimed(id, LockGroups))))
         case Claimed(_, _) => Blocked
         case Over => To(s.(stopping := SetCaller(st, id, Returned))))
      case InBody => if st.once.Over? then To(s.(stopping := SetCaller(st, id, Returned))) else Blocked
      case Returned => Blocked
  }

  predicate StillStopping(group: seq<Name>, stops: map<Name, StopCall>) {
    exists n :: n in group && n in stops && !stops[n].joined
  }

  /** One step of the once-body, which works through the recorded groups from the last. */
  function BodyStep(s: State): Move {
    var st := s.stopping;
    if !st.once.Claimed? then Blocked
    else match st.once.body
      case LockGroups =>
        if s.writer then Blocked
        else To(s.(reader := true,
                     stopping := st.(seen := s.startGroups, once := Claimed(st.once.owner, Ask(|s.startGroups|, 0)))))
      case Ask(left, j) =>
        if left > |s.startGroups| then Blocked
        else if left == 0 then To(s.(stopping := st.(once := Claimed(st.once.owner, UnlockGroups))))
        else if j >= |s.startGroups[left - 1]| then
          To(s.(stopping := st.(once := Claimed(st.once.owner, Join(left)))))
        else
          To(s.(stopping := st.(once := Claimed(st.once.owner, Ask(left, j + 1)),
                                  stops := st.stops[s.startGroups[left - 1][j] := StopCall(Asked, false)])))
      case Join(left) =>
        if left == 0 || left > |s.startGroups| || StillStopping(s.startGroups[left - 1], st.stops) then Blocked
        else To(s.(stopping := st.(once := Claimed(st.once.owner, Ask(left - 1, 0)))))
      case UnlockGroups => To(s.(reader := false, stopping := st.(once := Over)))
  }

  /** The goroutine that calls `service.Stop`. */
  function StopStep(st: Stopping, n: Name): StopMove {
    if n !in st.stops then StopBlocked
    else match st.stops[n].pc
      case Asked => StopTo(st.(stops := st.stops[n := StopCall(InStop, st.stops[n].joined)], calls := st.calls + [n]))
      case InStop => StopTo(st.(stops := st.stops[n := StopCall(Stopped, st.stops[n].joined)]))
      case _ => StopBlocked
  }

  /** The goroutine that waits for that one, or for the stop timer. */
  function JoinStep(st: Stopping, n: Name, timedOut: bool): StopMove {
    if n !in st.stops || st.stops[n].joined || st.stops[n].pc.NotAsked?
      || (!timedOut && !st.stops[n].pc.Stopped?) then StopBlocked
    else StopTo(st.(stops := st.stops[n := StopCall(st.stops[n].pc, true)]))
  }

  function WithStopping(s: State, st: StopMove): Move {
    if st.StopTo? then To(s.(stopping := st.stopping)) else Blocked
  }

  function Step(c: Config, s: State, a: Action): Move
    requires SameKeys(c, s)
  {
    match a
    case CancelParent => To(s.(cancelled := true))
    case SignalReady(n) => To(s.(ready := s.ready + {n}))
    case CallStop(id) =>
      if External(id) in s.stopping.callers then Blocked
      else To(s.(stopping := SetCaller(s.stopping, External(id), Entered)))
    case Main(preferContext) => MainStep(c, s, preferContext)
    case Service(n, outcome, contextFirst) => ServiceStep(c, s, n, outcome, contextFirst)
    case Caller(id) => CallerStep(s, id)
    case Body => BodyStep(s)
    case StopGoroutine(n) => WithStopping(s, StopStep(s.stopping, n))
    case StopJoined(n, timedOut) => WithStopping(s, JoinStep(s.stopping, n, timedOut))
  }

  /** `acts` is a run from `s` to `t`. */
  ghost predicate Runs(c: Config, s: State, acts: seq<Action>, t: State)
    decreases |acts|
  {
    SameKeys(c, s) &&
    if acts == [] then s == t
    else var next := Step(c, s, acts[0]); next.To? && Runs(c, next.state, acts[1..], t)
  }

  ghost predicate Reachable(c: Config, s: State) {
    SameKeys(c, s) && exists acts :: Runs(c, Init(c), acts, s)
  }
}

/** Scheduler and GPU guard together: every `throttleRequested(b)` the guard emits is
    delivered as `setPaused(b)` by the polling thread, while worker threads go on taking
    their turns between its stores, its pause flag and its notification. */
module GuardedQueue {
  import opened Wrappers
  import opened Scheduler
  import opened SchedulerInvariants
  import opened Capacity
  import opened GpuGuardModel
  import opened WakeProtocol

  /** Where the polling thread is: outside a poll, about to call `setPaused`, or inside
      `setPaused` after the lock was released. */
  datatype Poller = Idle | Signalling(paused: bool) | Notifying

  datatype Daemon = Daemon(y: System, guard: Guard, booted: bool, poller: Poller)

  datatype Move =
    | Boot
    | Tick(reply: NvmlReply)
    | Deliver
    | NotifyWaiters
    | Worker(action: Action)

  /** Workers submit, dequeue and complete tasks; only the poller pauses or judges. */
  predicate IsWorkerAction(a: Action) {
    !a.Store? && !a.Announce? && !a.Judge?
  }

  predicate MoveEnabled(cfg: QueueConfig, d: Daemon, m: Move)
    requires |d.y.w.s.queues| == 3
  {
    match m
    case Boot => !d.booted
    case Tick(_) => d.booted && d.poller.Idle?
    case Deliver => d.poller.Signalling?
    case NotifyWaiters => d.poller.Notifying? && d.y.pending > 0
    case Worker(a) => IsWorkerAction(a) && Enabled(cfg, d.y, a)
  }

  /** The guard has new figures: its verdict changes at once, its signal is on its way. */
  function Judged(cfg: QueueConfig, d: Daemon, o: Outcome): Daemon
    requires WellFormed(d.y.w.s)
  {
    d.(y := Apply(cfg, d.y, Judge(CanAcceptWork(o.guard))),
       guard := o.guard,
       poller := if o.signals == [] then Idle else Signalling(o.signals[0]))
  }

  function Make(cfg: QueueConfig, d: Daemon, m: Move): Daemon
    requires WellFormed(d.y.w.s) && MoveEnabled(cfg, d, m)
  {
    match m
    case Boot => Judged(cfg, d, Initialize(d.guard)).(booted := true)
    case Tick(reply) => Judged(cfg, d, Poll(d.guard, reply))
    case Deliver => d.(y := Apply(cfg, d.y, Store(d.poller.paused)), poller := Notifying)
    case NotifyWaiters => d.(y := Apply(cfg, d.y, Announce), poller := Idle)
    case Worker(a) => d.(y := Apply(cfg, d.y, a))
  }

  function StartDaemon(hasDevice: bool, threshold: real, headroomMb: nat): Daemon {
    Daemon(StartSystem(false), Fresh(hasDevice, threshold, headroomMb), false, Idle)
  }

  // ---- What the two halves know of each other ------------------------------------

  /** The pause flag is the throttle flag, except while a signal is on its way; then the
      signal carries the difference.  A throttling signal leaves a refusing guard behind. */
  ghost predicate Agree(d: Daemon) {
    && d.y.accepts == CanAcceptWork(d.guard)
    && d.y.pending == (if d.poller.Notifying? then 1 else 0)
    && (!d.booted ==> d.guard == Fresh(d.guard.hasDevice, d.guard.threshold, d.guard.headroomMb) && d.poller.Idle?)
    && (d.booted && !d.guard.nvmlAvailable ==> d.guard.throttled)
    && match d.poller
       case Signalling(b) => d.guard.throttled == b && (b ==> !d.y.accepts) && (!b ==> d.y.w.s.paused)
       case _ => d.guard.throttled == d.y.w.s.paused
  }

  /** Worker actions touch neither the pause flag nor the guard. */
  lemma WorkersKeepFlags(cfg: QueueConfig, y: System, a: Action)
    requires WellFormed(y.w.s) && Enabled(cfg, y, a) && IsWorkerAction(a)
    ensures var y' := Apply(cfg, y, a);
            y'.w.s.paused == y.w.s.paused && y'.accepts == y.accepts && y'.pending == y.pending
  {
  }

  lemma AgreeKept(cfg: QueueConfig, d: Daemon, m: Move)
    requires WellFormed(d.y.w.s) && Agree(d) && MoveEnabled(cfg, d, m)
    ensures Agree(Make(cfg, d, m))
  {
    if m.Worker? {
      WorkersKeepFlags(cfg, d.y, m.action);
    }
  }

  // ---- Wake-ups survive exactly the polls that are not silent -----------------------

  ghost predicate DaemonInvariant(cfg: QueueConfig, d: Daemon) {
    SystemInvariant(cfg, d.y) && Agree(d)
  }

  lemma MoveKeepsInvariant(cfg: QueueConfig, d: Daemon, m: Move)
    requires DaemonInvariant(cfg, d) && MoveEnabled(cfg, d, m)
    requires m.Tick? ==> !SilentRise(d.guard, m.reply)
    ensures DaemonInvariant(cfg, Make(cfg, d, m))
  {
    AgreeKept(cfg, d, m);
    match m
    case Boot => ActionKeepsInvariant(cfg, d.y, Judge(CanAcceptWork(Initialize(d.guard).guard)));
    case Tick(reply) =>
      SilentRiseIsExact(d.guard, reply);
      ActionKeepsInvariant(cfg, d.y, Judge(CanAcceptWork(Poll(d.guard, reply).guard)));
    case Deliver => ActionKeepsInvariant(cfg, d.y, Store(d.poller.paused));
    case NotifyWaiters => ActionKeepsInvariant(cfg, d.y, Announce);
    case Worker(a) =>
      WorkersKeepFlags(cfg, d.y, a);
      ActionKeepsInvariant(cfg, d.y, a);
  }

  /** A run of the daemon in which every move is enabled. */
  ghost predicate Runs(cfg: QueueConfig, d: Daemon, ms: seq<Move>)
    requires WellFormed(d.y.w.s)
    decreases |ms|
  {
    ms == [] ||
    (&& MoveEnabled(cfg, d, ms[0])
     && WellFormed(Make(cfg, d, ms[0]).y.w.s)
     && Runs(cfg, Make(cfg, d, ms[0]), ms[1..]))
  }

  ghost function Reached(cfg: QueueConfig, d: Daemon, ms: seq<Move>): Daemon
    requires WellFormed(d.y.w.s) && Runs(cfg, d, ms)
    decreases |ms|
  {
    if ms == [] then d else Reached(cfg, Make(cfg, d, ms[0]), ms[1..])
  }

  ghost predicate NoSilentTick(cfg: QueueConfig, d: Daemon, ms: seq<Move>)
    requires WellFormed(d.y.w.s) && Runs(cfg, d, ms)
    decreases |ms|
  {
    ms == [] ||
    (&& (ms[0].Tick? ==> !SilentRise(d.guard, ms[0].reply))
     && NoSilentTick(cfg, Make(cfg, d, ms[0]), ms[1..]))
  }

  lemma {:induction false} AgreeInEveryState(cfg: QueueConfig, d: Daemon, ms: seq<Move>)
    requires WellFormed(d.y.w.s) && Agree(d) && Runs(cfg, d, ms)
    ensures Agree(Reached(cfg, d, ms)) && WellFormed(Reached(cfg, d, ms).y.w.s)
    decreases |ms|
  {
    if ms != [] {
      AgreeKept(cfg, d, ms[0]);
      AgreeInEveryState(cfg, Make(cfg, d, ms[0]), ms[1..]);
    }
  }

  /** In every reachable state with no signal on its way, the queue is paused exactly when
      the guard is throttled. */
  lemma PausedIsThrottled(cfg: QueueConfig, hasDevice: bool, threshold: real, headroomMb: nat, ms: seq<Move>)
    requires Runs(cfg, StartDaemon(hasDevice, threshold, headroomMb), ms)
    ensures var d := Reached(cfg, StartDaemon(hasDevice, threshold, headroomMb), ms);
            if d.poller.Signalling? then d.guard.throttled == d.poller.paused
            else d.guard.throttled == d.y.w.s.paused
  {
    AgreeInEveryState(cfg, StartDaemon(hasDevice, threshold, headroomMb), ms);
  }

  lemma {:induction false} InvariantInEveryRun(cfg: QueueConfig, d: Daemon, ms: seq<Move>)
    requires DaemonInvariant(cfg, d) && Runs(cfg, d, ms) && NoSilentTick(cfg, d, ms)
    ensures DaemonInvariant(cfg, Reached(cfg, d, ms))
    decreases |ms|
  {
    if ms != [] {
      MoveKeepsInvariant(cfg, d, ms[0]);
      InvariantInEveryRun(cfg, Make(cfg, d, ms[0]), ms[1..]);
    }
  }

  /** Threads asleep while a task could be handed out, and nobody awake or about to wake them. */
  ghost predicate WakeupLost(cfg: QueueConfig, d: Daemon) {
    && d.y.sleeping != {} && d.y.notified == {} && d.y.pending == 0
    && d.poller.Idle?
    && MayRun(cfg, d.y.accepts, d.y.w.s)
  }

  /** A daemon whose polls are never silent loses no wake-up. */
  lemma NoWakeupLost(cfg: QueueConfig, hasDevice: bool, threshold: real, headroomMb: nat, ms: seq<Move>)
    requires Runs(cfg, StartDaemon(hasDevice, threshold, headroomMb), ms)
    requires NoSilentTick(cfg, StartDaemon(hasDevice, threshold, headroomMb), ms)
    ensures !WakeupLost(cfg, Reached(cfg, StartDaemon(hasDevice, threshold, headroomMb), ms))
  {
    var d := StartDaemon(hasDevice, threshold, headroomMb);
    InvariantAtStart(cfg);
    InvariantInEveryRun(cfg, d, ms);
    var d' := Reached(cfg, d, ms);
    DispatchablePositive(cfg, d'.y.accepts, d'.y.w.s);
  }

  // ---- Silent polls do lose wake-ups ---------------------------------------------

  const SLEEPER: Thread := 7

  ghost predicate CanHoldOne(cfg: QueueConfig, k: TaskType) {
    cfg.maxQueueDepth > 0 && Limit(cfg, k) > 0
  }

  function OneQueued(k: TaskType): World {
    START.(s := Append(INITIAL, Task(0, k, High, "")), accepted := [Task(0, k, High, "")])
  }

  lemma OneQueuedCanRun(cfg: QueueConfig, k: TaskType)
    requires CanHoldOne(cfg, k)
    ensures Step(cfg, START, Enqueue(Task(0, k, High, ""))) == OneQueued(k)
    ensures WellFormed(OneQueued(k).s) && Invariant(cfg, OneQueued(k))
    ensures MayRun(cfg, true, OneQueued(k).s)
  {
    InvariantAtStart(cfg);
    InvariantKept(cfg, START, Enqueue(Task(0, k, High, "")));
    assert START.accepted + [Task(0, k, High, "")] == OneQueued(k).accepted;
    assert ReadyAt(cfg, OneQueued(k).s, HIGH, 0);
  }

  lemma RunCons(cfg: QueueConfig, d: Daemon, m: Move, ms: seq<Move>)
    requires WellFormed(d.y.w.s) && MoveEnabled(cfg, d, m)
    requires WellFormed(Make(cfg, d, m).y.w.s) && Runs(cfg, Make(cfg, d, m), ms)
    ensures Runs(cfg, d, [m] + ms)
    ensures Reached(cfg, d, [m] + ms) == Reached(cfg, Make(cfg, d, m), ms)
  {
  }

  lemma SubmitOne(cfg: QueueConfig, d: Daemon, k: TaskType)
    requires CanHoldOne(cfg, k)
    requires d.y.w == START && d.y.sleeping == {}
    ensures var m := Worker(Submit(Task(0, k, High, ""), None));
            MoveEnabled(cfg, d, m) && Make(cfg, d, m) == d.(y := d.y.(w := OneQueued(k)))
  {
  }

  lemma CallOne(cfg: QueueConfig, d: Daemon, k: TaskType)
    requires CanHoldOne(cfg, k) && WellFormed(OneQueued(k).s)
    requires d.y.w == OneQueued(k) && d.y.sleeping == {} && d.y.notified == {} && !d.y.accepts
    ensures var m := Worker(Call(SLEEPER));
            MoveEnabled(cfg, d, m) && Make(cfg, d, m) == d.(y := d.y.(sleeping := {SLEEPER}))
  {
  }

  lemma SilentTickStrands(cfg: QueueConfig, d: Daemon, r: NvmlReply, k: TaskType)
    requires CanHoldOne(cfg, k)
    requires d.booted && d.poller.Idle? && !d.y.accepts
    requires d.y.w == OneQueued(k) && d.y.sleeping == {SLEEPER} && d.y.notified == {} && d.y.pending == 0
    requires SilentRise(d.guard, r)
    ensures WellFormed(d.y.w.s) && MoveEnabled(cfg, d, Tick(r))
    ensures WakeupLost(cfg, Make(cfg, d, Tick(r)))
  {
    OneQueuedCanRun(cfg, k);
    SilentRiseIsExact(d.guard, r);
  }

  /** One task is submitted, one thread calls `dequeue` in vain, and the next poll is silent. */
  function Stranding(k: TaskType, r: NvmlReply): seq<Move> {
    [Worker(Submit(Task(0, k, High, ""), None))] + ([Worker(Call(SLEEPER))] + ([Tick(r)] + []))
  }

  lemma StrandingRuns(cfg: QueueConfig, d: Daemon, r: NvmlReply, k: TaskType)
    requires CanHoldOne(cfg, k) && WellFormed(d.y.w.s)
    requires d.booted && d.poller.Idle? && !d.y.accepts && SilentRise(d.guard, r)
    requires d.y.w == START && d.y.sleeping == {} && d.y.notified == {} && d.y.pending == 0
    ensures Runs(cfg, d, Stranding(k, r))
    ensures WakeupLost(cfg, Reached(cfg, d, Stranding(k, r)))
  {
    OneQueuedCanRun(cfg, k);
    SubmitOne(cfg, d, k);
    var d1 := d.(y := d.y.(w := OneQueued(k)));
    CallOne(cfg, d1, k);
    var d2 := d1.(y := d1.y.(sleeping := {SLEEPER}));
    SilentTickStrands(cfg, d2, r, k);
    RunCons(cfg, d2, Tick(r), []);
    RunCons(cfg, d1, Worker(Call(SLEEPER)), [Tick(r)] + []);
    RunCons(cfg, d, Worker(Submit(Task(0, k, High, ""), None)), [Worker(Call(SLEEPER))] + ([Tick(r)] + []));
  }

  /** A daemon just booted strands a sleeper at its first poll, whenever that poll finds the
      GPU inside its limits. */
  lemma FirstPollLosesWakeup(cfg: QueueConfig, threshold: real, headroomMb: nat, r: NvmlReply, k: TaskType)
    requires CanHoldOne(cfg, k)
    requires Suits(Limits(threshold, headroomMb), r)
    ensures var d := StartDaemon(true, threshold, headroomMb);
            && Runs(cfg, d, [Boot] + Stranding(k, r))
            && WakeupLost(cfg, Reached(cfg, d, [Boot] + Stranding(k, r)))
  {
    var d := StartDaemon(true, threshold, headroomMb);
    FirstPollRisesSilently(threshold, headroomMb, r);
    StrandingRuns(cfg, Make(cfg, d, Boot), r, k);
    RunCons(cfg, d, Boot, Stranding(k, r));
  }

  /** So does a poll inside the limits after a first poll exactly at the threshold. */
  lemma PollAfterThresholdLosesWakeup(cfg: QueueConfig, threshold: real, headroomMb: nat,
                                      at: NvmlReply, r: NvmlReply, k: TaskType)
    requires CanHoldOne(cfg, k)
    requires at.Sample? && at.percent as real == threshold && at.freeBytes >= (headroomMb + 1) * 1048576
    requires Suits(Limits(threshold, headroomMb), r)
    ensures var d := StartDaemon(true, threshold, headroomMb);
            var ms := [Boot] + ([Tick(at)] + Stranding(k, r));
            Runs(cfg, d, ms) && WakeupLost(cfg, Reached(cfg, d, ms))
  {
    var d := StartDaemon(true, threshold, headroomMb);
    var d1 := Make(cfg, d, Boot);
    var d2 := Make(cfg, d1, Tick(at));
    assert !d2.guard.throttled && d2.poller == Idle && !d2.y.accepts;
    StrandingRuns(cfg, d2, r, k);
    RunCons(cfg, d1, Tick(at), Stranding(k, r));
    RunCons(cfg, d, Boot, [Tick(at)] + Stranding(k, r));
  }

  /** A poll keeps the invariant of every daemon it can happen in, exactly when it is not a
      silent rise: the guard was throttled, or already accepted work, or still refuses it. */
  lemma PollIsSafeIffNotSilent(cfg: QueueConfig, g: Guard, r: NvmlReply, k: TaskType)
    requires CanHoldOne(cfg, k)
    ensures (forall d :: DaemonInvariant(cfg, d) && d.guard == g && MoveEnabled(cfg, d, Tick(r))
              ==> DaemonInvariant(cfg, Make(cfg, d, Tick(r))))
            <==> !SilentRise(g, r)
  {
    if SilentRise(g, r) {
      var d := Daemon(System(OneQueued(k), false, {SLEEPER}, {}, 0), g, true, Idle);
      OneQueuedCanRun(cfg, k);
      DispatchablePositive(cfg, false, OneQueued(k).s);
      SilentTickStrands(cfg, d, r, k);
      var d' := Make(cfg, d, Tick(r));
      DispatchablePositive(cfg, d'.y.accepts, d'.y.w.s);
      assert DaemonInvariant(cfg, d);
      assert !DaemonInvariant(cfg, d');
    } else {
      forall d | DaemonInvariant(cfg, d) && d.guard == g && MoveEnabled(cfg, d, Tick(r))
        ensures DaemonInvariant(cfg, Make(cfg, d, Tick(r)))
      {
        MoveKeepsInvariant(cfg, d, Tick(r));
      }
    }
  }

  // ---- No work while throttled ---------------------------------------------------

  /** No poll falls below the hysteresis band with memory above the headroom. */
  ghost predicate NoRecovery(g: Guard, ms: seq<Move>) {
    forall i :: 0 <= i < |ms| && ms[i].Tick? ==> !Relaxes(LimitsOf(g), ms[i].reply)
  }

  lemma ThrottledStep(cfg: QueueConfig, d: Daemon, m: Move)
    requires WellFormed(d.y.w.s) && Agree(d) && MoveEnabled(cfg, d, m)
    requires d.booted && d.guard.throttled
    requires m.Tick? ==> !Relaxes(LimitsOf(d.guard), m.reply)
    ensures var d' := Make(cfg, d, m);
            && d'.booted && d'.guard.throttled
            && d'.guard.threshold == d.guard.threshold && d'.guard.headroomMb == d.guard.headroomMb
            && d'.y.w.dispatched == d.y.w.dispatched
  {
  }

  /** From a throttle signal on, whatever the workers do, no task is handed out and the
      guard stays throttled until some poll recovers. */
  lemma {:induction false} ThrottledHandsOutNothing(cfg: QueueConfig, d: Daemon, ms: seq<Move>)
    requires WellFormed(d.y.w.s) && Agree(d) && Runs(cfg, d, ms)
    requires d.booted && d.guard.throttled && NoRecovery(d.guard, ms)
    ensures var d' := Reached(cfg, d, ms);
            d'.guard.throttled && d'.y.w.dispatched == d.y.w.dispatched
    decreases |ms|
  {
    if ms != [] {
      AgreeKept(cfg, d, ms[0]);
      ThrottledStep(cfg, d, ms[0]);
      var d1 := Make(cfg, d, ms[0]);
      forall i | 0 <= i < |ms[1..]| && ms[1..][i].Tick? ensures !Relaxes(LimitsOf(d1.guard), ms[1..][i].reply) {
        assert ms[1..][i] == ms[i + 1];
        assert !Relaxes(LimitsOf(d.guard), ms[i + 1].reply);
      }
      ThrottledHandsOutNothing(cfg, d1, ms[1..]);
    }
  }

  lemma FailedStep(cfg: QueueConfig, d: Daemon, m: Move)
    requires WellFormed(d.y.w.s) && Agree(d) && MoveEnabled(cfg, d, m)
    requires d.booted && !d.guard.nvmlAvailable
    ensures var d' := Make(cfg, d, m);
            d'.booted && d'.guard == d.guard && d'.y.w.dispatched == d.y.w.dispatched
  {
  }

  /** After an NVML failure, or without a device, no task is ever handed out again. */
  lemma {:induction false} FailedHandsOutNothing(cfg: QueueConfig, d: Daemon, ms: seq<Move>)
    requires WellFormed(d.y.w.s) && Agree(d) && Runs(cfg, d, ms)
    requires d.booted && !d.guard.nvmlAvailable
    ensures var d' := Reached(cfg, d, ms);
            d'.y.w.dispatched == d.y.w.dispatched && d'.guard == d.guard && d'.booted
    decreases |ms|
  {
    if ms != [] {
      AgreeKept(cfg, d, ms[0]);
      FailedStep(cfg, d, ms[0]);
      FailedHandsOutNothing(cfg, Make(cfg, d, ms[0]), ms[1..]);
    }
  }

  /** A poll that NVML does not answer stops all work for good. */
  lemma {:induction false} NvmlFailureStopsWork(cfg: QueueConfig, d: Daemon, r: NvmlReply, ms: seq<Move>)
    requires WellFormed(d.y.w.s) && Agree(d) && Runs(cfg, d, [Tick(r)] + ms) && !r.Sample?
    ensures var d' := Reached(cfg, d, [Tick(r)] + ms);
            d'.y.w.dispatched == d.y.w.dispatched && !d'.y.accepts && d'.guard.throttled
  {
    assert ([Tick(r)] + ms)[0] == Tick(r) && ([Tick(r)] + ms)[1..] == ms;
    AgreeKept(cfg, d, Tick(r));
    FailedHandsOutNothing(cfg, Make(cfg, d, Tick(r)), ms);
    AgreeInEveryState(cfg, d, [Tick(r)] + ms);
  }
}

/** The mutex and condition variable of `TaskQueue`.  Threads in `dequeue` sleep on the
    condition variable or, once notified, compete for the lock; every action is one
    critical section, except that `setPaused` notifies after it has released the lock. */
module WakeProtocol {
  import opened Wrappers
  import opened Scheduler
  import opened SchedulerInvariants
  import opened Capacity

  type Thread = nat

  /** `accepts` is the current verdict of the guard; `pending` counts the `setPaused` calls
      that have stored the flag and not yet notified. */
  datatype System = System(
    w: World,
    accepts: bool,
    sleeping: set<Thread>,
    notified: set<Thread>,
    pending: nat
  )

  datatype Action =
    | Submit(task: Task, wakes: Option<Thread>)  // enqueue, with the choice of notify_one
    | Call(thread: Thread)                       // a thread enters dequeue
    | Resume(thread: Thread)                     // a notified thread gets the lock back
    | WakeUp(thread: Thread)                     // a spurious wake-up
    | Finish(id: TaskId)                         // taskCompleted
    | Store(paused: bool)                        // setPaused, under the lock
    | Announce                                   // setPaused, after the lock
    | Judge(accepts: bool)                       // the guard changes its verdict

  /** `notify_one` wakes some sleeper if there is one. */
  predicate WakesOne(sleeping: set<Thread>, wakes: Option<Thread>) {
    match wakes
    case None => sleeping == {}
    case Some(t) => t in sleeping
  }

  predicate Enabled(cfg: QueueConfig, y: System, a: Action)
    requires |y.w.s.queues| == 3
  {
    match a
    case Submit(_, wakes) => Accepts(cfg, y.w.s) ==> WakesOne(y.sleeping, wakes)
    case Call(t) => t !in y.sleeping && t !in y.notified
    case Resume(t) => t in y.notified
    case WakeUp(t) => t in y.sleeping
    case Announce => y.pending > 0
    case Finish(_) => true
    case Store(_) => true
    case Judge(_) => true
  }

  function NotifyAll(y: System): System {
    y.(sleeping := {}, notified := y.notified + y.sleeping)
  }

  /** A thread holding the lock in `dequeue`: it leaves with a task, or it sleeps. */
  function TryDequeue(cfg: QueueConfig, y: System, t: Thread): System
    requires WellFormed(y.w.s)
  {
    var y' := y.(w := Step(cfg, y.w, Dequeue(y.accepts)), notified := y.notified - {t});
    if Pick(cfg, y.accepts, y.w.s).Some? then y' else y'.(sleeping := y.sleeping + {t})
  }

  function Apply(cfg: QueueConfig, y: System, a: Action): System
    requires WellFormed(y.w.s) && Enabled(cfg, y, a)
  {
    match a
    case Submit(task, wakes) =>
      var y' := y.(w := Step(cfg, y.w, Enqueue(task)));
      if Accepts(cfg, y.w.s) && wakes.Some?
      then y'.(sleeping := y.sleeping - {wakes.value}, notified := y.notified + {wakes.value})
      else y'
    case Call(t) => TryDequeue(cfg, y, t)
    case Resume(t) => TryDequeue(cfg, y, t)
    case WakeUp(t) => y.(sleeping := y.sleeping - {t}, notified := y.notified + {t})
    case Finish(id) => NotifyAll(y.(w := Step(cfg, y.w, Complete(id))))
    case Store(b) => y.(w := Step(cfg, y.w, SetPaused(b)), pending := y.pending + 1)
    case Announce => NotifyAll(y).(pending := y.pending - 1)
    case Judge(b) => y.(accepts := b)
  }

  // ---- The invariant -------------------------------------------------------------

  /** No wake-up is lost: whoever sleeps, either a notification is still to come, or enough
      threads are already awake to take everything that can be handed out. */
  ghost predicate NoLostWakeup(cfg: QueueConfig, y: System)
    requires |y.w.s.queues| == 3
  {
    y.sleeping == {} || y.pending > 0 || |y.notified| >= Dispatchable(cfg, y.accepts, y.w.s)
  }

  ghost predicate SystemInvariant(cfg: QueueConfig, y: System) {
    && Invariant(cfg, y.w)
    && y.sleeping !! y.notified
    && NoLostWakeup(cfg, y)
  }

  /** The guard starts to accept work while the queue is running and nobody will notify. */
  predicate Unannounced(y: System, a: Action) {
    a == Judge(true) && !y.accepts && !y.w.s.paused && y.pending == 0
  }

  /** One pass of `dequeue` hands out one task, unless there is none to hand out. */
  lemma DequeueTakesOne(cfg: QueueConfig, accepts: bool, w: World)
    requires WellFormed(w.s)
    ensures var w' := Step(cfg, w, Dequeue(accepts));
            && WellFormed(w'.s)
            && (Pick(cfg, accepts, w.s).Some? <==> Dispatchable(cfg, accepts, w.s) > 0)
            && (if Pick(cfg, accepts, w.s).Some? then
                  && |w'.dispatched| == |w.dispatched| + 1
                  && Dispatchable(cfg, accepts, w'.s) == Dispatchable(cfg, accepts, w.s) - 1
                else w' == w)
  {
    var pick := Pick(cfg, accepts, w.s);
    PickIsTotal(cfg, accepts, w.s);
    DispatchablePositive(cfg, accepts, w.s);
    StepWellFormed(cfg, w, Dequeue(accepts));
    if pick.Some? {
      DispatchableAfterDispatch(cfg, accepts, w.s, pick.value);
    }
  }

  lemma TryDequeueKeepsWakeups(cfg: QueueConfig, y: System, t: Thread)
    requires WellFormed(y.w.s) && NoLostWakeup(cfg, y)
    requires t !in y.sleeping
    ensures |TryDequeue(cfg, y, t).w.s.queues| == 3 && NoLostWakeup(cfg, TryDequeue(cfg, y, t))
  {
    DequeueTakesOne(cfg, y.accepts, y.w);
    assert y.notified == (y.notified - {t}) + if t in y.notified then {t} else {};
    assert |y.notified - {t}| >= |y.notified| - 1;
  }

  lemma SubmitKeepsWakeups(cfg: QueueConfig, y: System, a: Action)
    requires WellFormed(y.w.s) && NoLostWakeup(cfg, y) && y.sleeping !! y.notified
    requires a.Submit? && Enabled(cfg, y, a)
    ensures |Apply(cfg, y, a).w.s.queues| == 3 && NoLostWakeup(cfg, Apply(cfg, y, a))
  {
    StepWellFormed(cfg, y.w, Enqueue(a.task));
    DispatchableAfterAppend(cfg, y.accepts, y.w.s, a.task);
  }

  lemma WakeupsKept(cfg: QueueConfig, y: System, a: Action)
    requires WellFormed(y.w.s) && NoLostWakeup(cfg, y) && y.sleeping !! y.notified
    requires Enabled(cfg, y, a) && !Unannounced(y, a)
    ensures |Apply(cfg, y, a).w.s.queues| == 3 && NoLostWakeup(cfg, Apply(cfg, y, a))
  {
    match a
    case Submit(_, _) => SubmitKeepsWakeups(cfg, y, a);
    case Call(t) => TryDequeueKeepsWakeups(cfg, y, t);
    case Resume(t) => TryDequeueKeepsWakeups(cfg, y, t);
    case WakeUp(t) =>
    case Finish(id) => StepWellFormed(cfg, y.w, Complete(id));
    case Store(b) =>
    case Announce =>
    case Judge(b) =>
  }

  lemma ApplyKeepsScheduler(cfg: QueueConfig, y: System, a: Action)
    requires Invariant(cfg, y.w) && Enabled(cfg, y, a)
    ensures Invariant(cfg, Apply(cfg, y, a).w)
  {
    match a
    case Submit(task, _) => InvariantKept(cfg, y.w, Enqueue(task));
    case Call(_) => InvariantKept(cfg, y.w, Dequeue(y.accepts));
    case Resume(_) => InvariantKept(cfg, y.w, Dequeue(y.accepts));
    case Finish(id) => InvariantKept(cfg, y.w, Complete(id));
    case Store(b) => InvariantKept(cfg, y.w, SetPaused(b));
    case WakeUp(_) =>
    case Announce =>
    case Judge(_) =>
  }

  /** Every action keeps the invariant, unless the guard starts to accept work unannounced. */
  lemma ActionKeepsInvariant(cfg: QueueConfig, y: System, a: Action)
    requires SystemInvariant(cfg, y) && Enabled(cfg, y, a) && !Unannounced(y, a)
    ensures SystemInvariant(cfg, Apply(cfg, y, a))
  {
    ApplyKeepsScheduler(cfg, y, a);
    WakeupsKept(cfg, y, a);
  }

  /** Who is woken: an accepted task wakes one sleeper if there is one, and a refused one
      nobody; a completion, and a pause flag once its lock is released, wake everybody. */
  lemma {:induction false} WhoIsWoken(cfg: QueueConfig, y: System, a: Action)
    requires WellFormed(y.w.s) && Enabled(cfg, y, a) && y.sleeping !! y.notified
    ensures var y' := Apply(cfg, y, a);
            match a
            case Submit(task, _) =>
              var full := |y.w.s.queues[0]| + |y.w.s.queues[1]| + |y.w.s.queues[2]| >= cfg.maxQueueDepth;
              |y'.notified| == |y.notified| + (if full || y.sleeping == {} then 0 else 1)
            case Finish(_) => y'.sleeping == {} && y'.notified == y.notified + y.sleeping
            case Announce => y'.sleeping == {} && y'.notified == y.notified + y.sleeping
            case Store(_) => y'.sleeping == y.sleeping && y'.notified == y.notified && y'.pending == y.pending + 1
            case Judge(_) => y'.sleeping == y.sleeping && y'.notified == y.notified
            case _ => y'.notified + y'.sleeping <= y.notified + y.sleeping + {a.thread}
  {
  }

  /** The initial system: nobody has called `dequeue` yet. */
  function StartSystem(accepts: bool): System {
    System(START, accepts, {}, {}, 0)
  }

  /** A run: every action is enabled when it happens and no verdict rises unannounced. */
  ghost predicate Announced(cfg: QueueConfig, y: System, acts: seq<Action>)
    requires WellFormed(y.w.s)
    decreases |acts|
  {
    acts == [] ||
    (&& Enabled(cfg, y, acts[0]) && !Unannounced(y, acts[0])
     && WellFormed(Apply(cfg, y, acts[0]).w.s)
     && Announced(cfg, Apply(cfg, y, acts[0]), acts[1..]))
  }

  ghost function After(cfg: QueueConfig, y: System, acts: seq<Action>): System
    requires WellFormed(y.w.s) && Announced(cfg, y, acts)
    decreases |acts|
  {
    if acts == [] then y else After(cfg, Apply(cfg, y, acts[0]), acts[1..])
  }

  lemma {:induction false} InvariantInEveryState(cfg: QueueConfig, y: System, acts: seq<Action>)
    requires SystemInvariant(cfg, y) && Announced(cfg, y, acts)
    ensures SystemInvariant(cfg, After(cfg, y, acts))
    decreases |acts|
  {
    if acts != [] {
      ActionKeepsInvariant(cfg, y, acts[0]);
      InvariantInEveryState(cfg, Apply(cfg, y, acts[0]), acts[1..]);
    }
  }

  /** No lost wake-up, over every run: if threads sleep, none is awake and no `setPaused` is
      about to notify, then there is nothing they could be handed. */
  lemma SleepersHaveNothingToDo(cfg: QueueConfig, accepts: bool, acts: seq<Action>)
    requires Announced(cfg, StartSystem(accepts), acts)
    ensures var y := After(cfg, StartSystem(accepts), acts);
            y.sleeping != {} && y.notified == {} && y.pending == 0 ==> !MayRun(cfg, y.accepts, y.w.s)
  {
    InvariantAtStart(cfg);
    InvariantInEveryState(cfg, StartSystem(accepts), acts);
    var y := After(cfg, StartSystem(accepts), acts);
    DispatchablePositive(cfg, y.accepts, y.w.s);
  }

  // ---- Notified threads do the work ----------------------------------------------

  function ResumeAll(ts: seq<Thread>): seq<Action> {
    seq(|ts|, i requires 0 <= i < |ts| => Resume(ts[i]))
  }

  ghost predicate Distinct(ts: seq<Thread>) {
    forall i, j :: 0 <= i < j < |ts| ==> ts[i] != ts[j]
  }

  /** Each resumed thread takes a task as long as there is one to hand out. */
  lemma ResumeTakesOne(cfg: QueueConfig, y: System, t: Thread)
    requires WellFormed(y.w.s) && t in y.notified && y.sleeping !! y.notified
    ensures var y' := Apply(cfg, y, Resume(t));
            && WellFormed(y'.w.s)
            && y'.notified == y.notified - {t}
            && y'.sleeping !! y'.notified
            && y'.accepts == y.accepts
            && (if Dispatchable(cfg, y.accepts, y.w.s) > 0 then
                  && |y'.w.dispatched| == |y.w.dispatched| + 1
                  && Dispatchable(cfg, y'.accepts, y'.w.s) == Dispatchable(cfg, y.accepts, y.w.s) - 1
                else y'.w == y.w)
  {
    DequeueTakesOne(cfg, y.accepts, y.w);
  }

  /** Whatever order the notified threads get the lock in, `n` of them hand out `n` tasks,
      or all that can be handed out if that is less. */
  lemma {:induction false} ResumedThreadsDrain(cfg: QueueConfig, y: System, ts: seq<Thread>)
    requires WellFormed(y.w.s) && y.sleeping !! y.notified
    requires Distinct(ts) && forall i :: 0 <= i < |ts| ==> ts[i] in y.notified
    ensures Announced(cfg, y, ResumeAll(ts))
    ensures var y' := After(cfg, y, ResumeAll(ts));
            var before := Dispatchable(cfg, y.accepts, y.w.s);
            var taken := if before < |ts| then before else |ts|;
            && WellFormed(y'.w.s) && y'.accepts == y.accepts
            && |y'.w.dispatched| == |y.w.dispatched| + taken
            && Dispatchable(cfg, y'.accepts, y'.w.s) == before - taken
    decreases |ts|
  {
    var acts := ResumeAll(ts);
    if ts != [] {
      assert acts[0] == Resume(ts[0]) && acts[1..] == ResumeAll(ts[1..]);
      ResumeTakesOne(cfg, y, ts[0]);
      ResumedThreadsDrain(cfg, Apply(cfg, y, acts[0]), ts[1..]);
    }
  }

  /** With no notification outstanding, letting every notified thread run leaves nothing
      dispatchable behind for the threads that still sleep. */
  lemma NothingLeftForSleepers(cfg: QueueConfig, y: System, ts: seq<Thread>)
    requires SystemInvariant(cfg, y) && y.sleeping != {} && y.pending == 0
    requires Distinct(ts) && (set i | 0 <= i < |ts| :: ts[i]) == y.notified && |ts| == |y.notified|
    ensures Announced(cfg, y, ResumeAll(ts))
    ensures var y' := After(cfg, y, ResumeAll(ts));
            && |y'.w.dispatched| == |y.w.dispatched| + Dispatchable(cfg, y.accepts, y.w.s)
            && !MayRun(cfg, y'.accepts, y'.w.s)
  {
    ResumedThreadsDrain(cfg, y, ts);
    var y' := After(cfg, y, ResumeAll(ts));
    DispatchablePositive(cfg, y'.accepts, y'.w.s);
  }
}

/** Which task is handed out, which is refused, and how many run, told from the configuration,
    the tasks and the history alone. */
module ServiceOrder {
  import opened Wrappers
  import opened Scheduler
  import opened SchedulerInvariants
  import opened BoundedBypass

  // ---- Limits ------------------------------------------------------------------

  /** Over every run, no type has more tasks running than the configuration allows it; a type
      that the configuration does not mention has none. */
  lemma {:induction false} RunningWithinConfiguration(cfg: QueueConfig, es: seq<Event>, k: TaskType)
    ensures Run(cfg, START, es).s.running[k] <= if k in cfg.maxConcurrent then cfg.maxConcurrent[k] else 0
  {
    InvariantAtStart(cfg);
    InvariantOverRuns(cfg, START, es);
    SlotsMeaning(cfg, Run(cfg, START, es), k);
  }

  // ---- Refusals ------------------------------------------------------------------

  function Enqueues(ts: seq<Task>): seq<Event> {
    seq(|ts|, i requires 0 <= i < |ts| => Enqueue(ts[i]))
  }

  lemma {:induction false} AllAcceptedFrom(cfg: QueueConfig, w: World, ts: seq<Task>)
    requires WellFormed(w.s)
    requires |w.s.queues[0]| + |w.s.queues[1]| + |w.s.queues[2]| + |ts| <= cfg.maxQueueDepth
    ensures Run(cfg, w, Enqueues(ts)).accepted == w.accepted + ts
    decreases |ts|
  {
    if ts != [] {
      var w' := Step(cfg, w, Enqueue(ts[0]));
      StepWellFormed(cfg, w, Enqueue(ts[0]));
      assert Enqueues(ts)[1..] == Enqueues(ts[1..]);
      AllAcceptedFrom(cfg, w', ts[1..]);
      assert w.accepted + [ts[0]] + ts[1..] == w.accepted + ts;
    }
  }

  /** A queue takes as many tasks as its depth allows, of whatever priorities and types. */
  lemma {:induction false} AllAcceptedUpToDepth(cfg: QueueConfig, ts: seq<Task>)
    requires |ts| <= cfg.maxQueueDepth
    ensures Run(cfg, START, Enqueues(ts)).accepted == ts
  {
    AllAcceptedFrom(cfg, START, ts);
    assert [] + ts == ts;
  }

  /** In every reachable state, an enqueue is refused, and changes nothing, iff exactly the
      configured number of tasks is queued. */
  lemma {:induction false} RefusedIffFull(cfg: QueueConfig, es: seq<Event>, t: Task)
    ensures var w := Run(cfg, START, es);
            var w' := Step(cfg, w, Enqueue(t));
            && (w' == w <==> |w.s.queues[0]| + |w.s.queues[1]| + |w.s.queues[2]| == cfg.maxQueueDepth)
            && (w' != w ==> w'.accepted == w.accepted + [t])
  {
    var w := Run(cfg, START, es);
    InvariantAtStart(cfg);
    InvariantOverRuns(cfg, START, es);
    if Step(cfg, w, Enqueue(t)) != w {
      assert |w.accepted + [t]| == |w.accepted| + 1;
    }
  }

  // ---- Order of service ------------------------------------------------------------

  /** Normal and Low take turns; Normal has the first one, and High takes none. */
  function Turn(dispatched: seq<Task>): Priority {
    if dispatched == [] then Normal
    else
      match dispatched[|dispatched| - 1].priority
      case High => Turn(dispatched[..|dispatched| - 1])
      case Normal => Low
      case Low => Normal
  }

  /** A task of this priority waits whose type has a free slot in the configuration. */
  ghost predicate Servable(cfg: QueueConfig, s: State, p: Priority) {
    exists q: nat, i: nat :: q < |s.queues| && i < |s.queues[q]| && s.queues[q][i].priority == p
      && s.queues[q][i].kind in cfg.maxConcurrent
      && s.running[s.queues[q][i].kind] < cfg.maxConcurrent[s.queues[q][i].kind]
  }

  /** The priority that has to be served, if any. */
  ghost function Due(cfg: QueueConfig, w: World): Option<Priority> {
    var turn := Turn(w.dispatched);
    var other := if turn == Normal then Low else Normal;
    if Servable(cfg, w.s, High) then Some(High)
    else if Servable(cfg, w.s, turn) then Some(turn)
    else if Servable(cfg, w.s, other) then Some(other)
    else None
  }

  lemma ReadyMeansFreeSlot(cfg: QueueConfig, running: Slots, t: Task)
    ensures Ready(cfg, running, t) <==> t.kind in cfg.maxConcurrent && running[t.kind] < cfg.maxConcurrent[t.kind]
  {
  }

  lemma {:induction false} ServableMeansReady(cfg: QueueConfig, s: State, p: Priority)
    requires WellFormed(s)
    ensures Servable(cfg, s, p) <==> exists i: nat :: ReadyAt(cfg, s, Index(p), i)
  {
    if Servable(cfg, s, p) {
      var q: nat, i: nat :| q < |s.queues| && i < |s.queues[q]| && s.queues[q][i].priority == p
        && s.queues[q][i].kind in cfg.maxConcurrent
        && s.running[s.queues[q][i].kind] < cfg.maxConcurrent[s.queues[q][i].kind];
      assert q == Index(p);
      assert ReadyAt(cfg, s, Index(p), i);
    }
    if i: nat :| ReadyAt(cfg, s, Index(p), i) {
      assert Index(s.queues[Index(p)][i].priority) == Index(p);
      assert s.queues[Index(p)][i].priority == p;
    }
  }

  /** `rr_index_` is the deque of the priority whose turn it is. */
  ghost predicate PointsAtTurn(w: World) {
    w.s.rr == Index(Turn(w.dispatched))
  }

  lemma {:induction false} TurnSnoc(dispatched: seq<Task>, t: Task)
    ensures Turn(dispatched + [t]) ==
            match t.priority case High => Turn(dispatched) case Normal => Low case Low => Normal
  {
    assert (dispatched + [t])[..|dispatched + [t]| - 1] == dispatched;
  }

  lemma {:induction false} TurnAfterDispatch(w: World, at: Place)
    requires WellFormed(w.s) && PointsAtTurn(w)
    requires at.deque < 3 && at.position < |w.s.queues[at.deque]|
    ensures PointsAtTurn(DispatchFrom(w, at))
  {
    var t := w.s.queues[at.deque][at.position];
    assert Index(t.priority) == at.deque;
    TurnSnoc(w.dispatched, t);
  }

  lemma {:induction false} TurnKept(cfg: QueueConfig, w: World, e: Event)
    requires WellFormed(w.s) && PointsAtTurn(w)
    ensures PointsAtTurn(Step(cfg, w, e))
  {
    if Served(cfg, w.s, e).Some? {
      ServedPlace(cfg, w, e);
      TurnAfterDispatch(w, Served(cfg, w.s, e).value);
    }
  }

  lemma {:induction false} TurnOverRuns(cfg: QueueConfig, w: World, es: seq<Event>)
    requires WellFormed(w.s) && PointsAtTurn(w)
    ensures PointsAtTurn(Run(cfg, w, es))
    decreases |es|
  {
    if es != [] {
      TurnKept(cfg, w, es[0]);
      StepWellFormed(cfg, w, es[0]);
      TurnOverRuns(cfg, Step(cfg, w, es[0]), es[1..]);
    }
  }

  /** Place `i` of deque `q` is the first one there whose type has a free slot. */
  ghost predicate FirstServable(cfg: QueueConfig, s: State, q: nat, i: nat) {
    && q < |s.queues| && i < |s.queues[q]|
    && s.queues[q][i].kind in cfg.maxConcurrent
    && s.running[s.queues[q][i].kind] < cfg.maxConcurrent[s.queues[q][i].kind]
    && forall j :: 0 <= j < i ==> s.queues[q][j].kind in cfg.maxConcurrent ==>
         s.running[s.queues[q][j].kind] >= cfg.maxConcurrent[s.queues[q][j].kind]
  }

  /** The first servable task of deque `q` was handed out, and its slot taken. */
  ghost predicate HandsOut(cfg: QueueConfig, w: World, w': World, q: nat, i: nat) {
    && FirstServable(cfg, w.s, q, i)
    && var t := w.s.queues[q][i];
    && w'.dispatched == w.dispatched + [t]
    && w'.s.queues == w.s.queues[q := w.s.queues[q][..i] + w.s.queues[q][i + 1..]]
    && w'.s.running == w.s.running[t.kind := w.s.running[t.kind] + 1]
    && w'.s.inflight == w.s.inflight[t.id := t.kind]
  }

  /** Every dequeue hands out a task of the priority that is due: High whenever a High task
      can run, else of Normal and Low the one that was not served last, else the other; and
      nothing iff the queue is paused, the guard refuses, or nothing can run.  It is the first
      task of its deque whose type has a free slot in the configuration. */
  lemma {:induction false} ServedInTurn(cfg: QueueConfig, es: seq<Event>, accepts: bool)
    ensures var w := Run(cfg, START, es);
            var w' := Step(cfg, w, Dequeue(accepts));
            if w.s.paused || !accepts || Due(cfg, w).None? then w' == w
            else exists q: nat, i: nat :: HandsOut(cfg, w, w', q, i) && w.s.queues[q][i].priority == Due(cfg, w).value
  {
    var w := Run(cfg, START, es);
    TurnOverRuns(cfg, START, es);
    ServedWhenDue(cfg, w, accepts);
    var pick := Pick(cfg, accepts, w.s);
    if pick.Some? {
      ServedPlace(cfg, w, Dequeue(accepts));
      HandsOutSelected(cfg, w, pick.value);
    }
  }

  lemma {:induction false} HandsOutSelected(cfg: QueueConfig, w: World, at: Place)
    requires at.deque < |w.s.queues| && ServedNext(cfg, w.s, at)
    ensures HandsOut(cfg, w, DispatchFrom(w, at), at.deque, at.position)
  {
    var q := w.s.queues[at.deque];
    ReadyMeansFreeSlot(cfg, w.s.running, q[at.position]);
    forall j: nat | j < at.position
      ensures q[j].kind in cfg.maxConcurrent ==> w.s.running[q[j].kind] >= cfg.maxConcurrent[q[j].kind]
    {
      assert !ReadyAt(cfg, w.s, at.deque, j);
      ReadyMeansFreeSlot(cfg, w.s.running, q[j]);
    }
  }

  lemma {:induction false} ServedWhenDue(cfg: QueueConfig, w: World, accepts: bool)
    requires WellFormed(w.s) && PointsAtTurn(w)
    ensures var pick := Pick(cfg, accepts, w.s);
            if w.s.paused || !accepts || Due(cfg, w).None? then pick.None?
            else
              && pick.Some? && pick.value.deque == Index(Due(cfg, w).value)
              && ReadyAt(cfg, w.s, pick.value.deque, pick.value.position)
  {
    SelectIsExact(cfg, w.s);
    ServableMeansReady(cfg, w.s, High);
    ServableMeansReady(cfg, w.s, Normal);
    ServableMeansReady(cfg, w.s, Low);
  }
}

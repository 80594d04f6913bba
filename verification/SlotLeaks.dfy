/** Slots that `taskCompleted` cannot give back: when they are lost, that they stay lost, and
    when counting is exact.  The in-flight table has one entry per id, so dispatching an id
    that is still in flight overwrites the only record of the slot taken first. */
module SlotLeaks {
  import opened Wrappers
  import opened Scheduler
  import opened SchedulerInvariants
  import opened BoundedBypass

  // ---- The run condition -----------------------------------------------------

  /** The task that an event hands out, if it hands out one. */
  function HandedOut(cfg: QueueConfig, s: State, e: Event): Option<Task>
    requires WellFormed(s)
  {
    match Served(cfg, s, e)
    case None => None
    case Some(at) =>
      SelectIsExact(cfg, s);
      Some(s.queues[at.deque][at.position])
  }

  /** An event hands out an id that is in flight as a task of type `k` at that moment. */
  predicate ReusesId(cfg: QueueConfig, s: State, e: Event, k: TaskType)
    requires WellFormed(s)
  {
    var t := HandedOut(cfg, s, e);
    t.Some? && t.value.id in s.inflight && s.inflight[t.value.id] == k
  }

  /** How often that happens in a run. */
  function Reuses(cfg: QueueConfig, w: World, es: seq<Event>, k: TaskType): nat
    requires WellFormed(w.s)
    decreases |es|
  {
    if es == [] then 0
    else
      StepWellFormed(cfg, w, es[0]);
      One(ReusesId(cfg, w.s, es[0], k)) + Reuses(cfg, Step(cfg, w, es[0]), es[1..], k)
  }

  /** No id is handed out while it is in flight. */
  ghost predicate NoLiveIdHandedOut(cfg: QueueConfig, w: World, es: seq<Event>)
    requires WellFormed(w.s)
    decreases |es|
  {
    es == [] ||
    (StepWellFormed(cfg, w, es[0]);
     var t := HandedOut(cfg, w.s, es[0]);
     && (t.Some? ==> t.value.id !in w.s.inflight)
     && NoLiveIdHandedOut(cfg, Step(cfg, w, es[0]), es[1..]))
  }

  lemma {:induction false} StepByHandOut(cfg: QueueConfig, w: World, e: Event)
    requires Invariant(cfg, w)
    ensures var t, w' := HandedOut(cfg, w.s, e), Step(cfg, w, e);
            && w'.overwritten == (if t.Some? && t.value.id in w.s.inflight
                                  then w.overwritten + [w.outstanding[t.value.id]] else w.overwritten)
            && w'.dispatched == (if t.Some? then w.dispatched + [t.value] else w.dispatched)
            && (t.Some? ==> Ready(cfg, w.s.running, t.value))
  {
    if Served(cfg, w.s, e).Some? {
      ServedPlace(cfg, w, e);
    }
  }

  lemma {:induction false} LeakedByStep(cfg: QueueConfig, w: World, e: Event, k: TaskType)
    requires Invariant(cfg, w)
    ensures Leaked(Step(cfg, w, e).overwritten, k) == Leaked(w.overwritten, k) + One(ReusesId(cfg, w.s, e, k))
  {
    StepByHandOut(cfg, w, e);
    var t := HandedOut(cfg, w.s, e);
    if t.Some? && t.value.id in w.s.inflight {
      LeakedSnoc(w.overwritten, w.outstanding[t.value.id], k);
    }
  }

  lemma {:induction false} LeakedIsReuses(cfg: QueueConfig, w: World, es: seq<Event>, k: TaskType)
    requires Invariant(cfg, w)
    ensures Leaked(Run(cfg, w, es).overwritten, k) == Leaked(w.overwritten, k) + Reuses(cfg, w, es, k)
    decreases |es|
  {
    if es != [] {
      LeakedByStep(cfg, w, es[0], k);
      InvariantKept(cfg, w, es[0]);
      LeakedIsReuses(cfg, Step(cfg, w, es[0]), es[1..], k);
    }
  }

  lemma {:induction false} OverwrittenByStep(cfg: QueueConfig, w: World, e: Event)
    requires Invariant(cfg, w)
    ensures var t := HandedOut(cfg, w.s, e);
            && w.overwritten <= Step(cfg, w, e).overwritten
            && (Step(cfg, w, e).overwritten == w.overwritten <==> (t.Some? ==> t.value.id !in w.s.inflight))
  {
    StepByHandOut(cfg, w, e);
  }

  /** Something is overwritten in a run iff an id is handed out while it is in flight. */
  lemma {:induction false} OverwrittenIffReused(cfg: QueueConfig, w: World, es: seq<Event>)
    requires Invariant(cfg, w)
    ensures w.overwritten <= Run(cfg, w, es).overwritten
    ensures Run(cfg, w, es).overwritten == w.overwritten <==> NoLiveIdHandedOut(cfg, w, es)
    decreases |es|
  {
    if es != [] {
      OverwrittenByStep(cfg, w, es[0]);
      InvariantKept(cfg, w, es[0]);
      OverwrittenIffReused(cfg, Step(cfg, w, es[0]), es[1..]);
    }
  }

  // ---- What the condition is worth -------------------------------------------

  /** A type has one slot taken per task in flight, and one for every time an in-flight id
      of that type was handed out again; never more than its limit. */
  lemma {:induction false} SlotsOverRuns(cfg: QueueConfig, es: seq<Event>, k: TaskType)
    ensures var s := Run(cfg, START, es).s;
            s.running[k] == |InFlightOf(s, k)| + Reuses(cfg, START, es, k) <= Limit(cfg, k)
  {
    InvariantAtStart(cfg);
    InvariantOverRuns(cfg, START, es);
    LeakedIsReuses(cfg, START, es, k);
    SlotsMeaning(cfg, Run(cfg, START, es), k);
  }

  /** The counts of all types are exact at the end of a run iff no id was handed out while
      it was in flight. */
  lemma {:induction false} SlotsExactIffNoReuse(cfg: QueueConfig, es: seq<Event>)
    ensures var s := Run(cfg, START, es).s;
            (forall k: TaskType :: s.running[k] == |InFlightOf(s, k)|) <==> NoLiveIdHandedOut(cfg, START, es)
  {
    var w := Run(cfg, START, es);
    InvariantAtStart(cfg);
    InvariantOverRuns(cfg, START, es);
    OverwrittenIffReused(cfg, START, es);
    forall k: TaskType
      ensures w.s.running[k] == |InFlightOf(w.s, k)| <==> Leaked(w.overwritten, k) == 0
    {
      SlotsMeaning(cfg, w, k);
    }
    NothingLeaked(w.overwritten);
  }

  lemma {:induction false} NothingLeaked(lost: seq<Task>)
    ensures (forall k: TaskType :: Leaked(lost, k) == 0) <==> lost == []
  {
    if lost != [] {
      LeakedPositive(lost, lost[0].kind);
    }
  }

  /** Every accepted task is queued, in flight or completed at the end of a run iff no id was
      handed out while it was in flight. */
  lemma {:induction false} NoTaskLostIffNoReuse(cfg: QueueConfig, es: seq<Event>)
    ensures var w := Run(cfg, START, es);
            multiset(w.accepted) == Queued(w.s) + multiset(w.outstanding.Values) + multiset(w.completed)
            <==> NoLiveIdHandedOut(cfg, START, es)
  {
    var w := Run(cfg, START, es);
    ConservationOverRuns(cfg, es);
    InvariantAtStart(cfg);
    OverwrittenIffReused(cfg, START, es);
    ConservedIffNothingLost(Queued(w.s) + multiset(w.outstanding.Values) + multiset(w.completed),
                            multiset(w.accepted), w.overwritten);
  }

  lemma {:induction false} ConservedIffNothingLost(kept: multiset<Task>, accepted: multiset<Task>, lost: seq<Task>)
    requires accepted == kept + multiset(lost)
    ensures accepted == kept <==> lost == []
  {
    if lost != [] {
      assert accepted[lost[0]] == kept[lost[0]] + multiset(lost)[lost[0]];
    }
  }

  // ---- A condition on what is enqueued ---------------------------------------

  function Ids(q: seq<Task>): multiset<TaskId> {
    if q == [] then multiset{} else multiset{q[0].id} + Ids(q[1..])
  }

  /** The ids that are queued or in flight. */
  function LiveIds(s: State): multiset<TaskId>
    requires |s.queues| == 3
  {
    Ids(s.queues[HIGH]) + Ids(s.queues[NORMAL]) + Ids(s.queues[LOW]) + multiset(s.inflight.Keys)
  }

  ghost predicate Distinct(ids: multiset<TaskId>) {
    forall id :: ids[id] <= 1
  }

  /** Whoever enqueues a task gives it an id that is neither queued nor in flight. */
  ghost predicate FreshIds(cfg: QueueConfig, w: World, es: seq<Event>)
    requires WellFormed(w.s)
    decreases |es|
  {
    es == [] ||
    (StepWellFormed(cfg, w, es[0]);
     && (es[0].Enqueue? ==> es[0].task.id !in LiveIds(w.s))
     && FreshIds(cfg, Step(cfg, w, es[0]), es[1..]))
  }

  lemma {:induction false} IdsAppend(a: seq<Task>, b: seq<Task>)
    ensures Ids(a + b) == Ids(a) + Ids(b)
  {
    if a == [] {
      assert a + b == b;
    } else {
      assert (a + b)[1..] == a[1..] + b;
      IdsAppend(a[1..], b);
    }
  }

  lemma IdsOfOne(t: Task)
    ensures Ids([t]) == multiset{t.id}
  {
  }

  lemma {:induction false} IdsAfterRemove(q: seq<Task>, i: nat)
    requires i < |q|
    ensures Ids(q) == Ids(RemoveAt(q, i)) + multiset{q[i].id}
  {
    assert q == q[..i] + ([q[i]] + q[i + 1..]);
    IdsAppend(q[..i], [q[i]] + q[i + 1..]);
    IdsAppend([q[i]], q[i + 1..]);
    IdsAppend(q[..i], q[i + 1..]);
    IdsOfOne(q[i]);
  }

  lemma {:induction false} LiveIdsReplaced(s: State, p: nat, q: seq<Task>)
    requires |s.queues| == 3 && p < 3
    ensures LiveIds(s.(queues := s.queues[p := q])) + Ids(s.queues[p]) == LiveIds(s) + Ids(q)
  {
    Exchanged(Ids(s.queues[HIGH]), Ids(s.queues[NORMAL]), Ids(s.queues[LOW]), multiset(s.inflight.Keys), Ids(q));
    var queues := s.queues[p := q];
    assert queues[HIGH] == (if p == HIGH then q else s.queues[HIGH]);
    assert queues[NORMAL] == (if p == NORMAL then q else s.queues[NORMAL]);
    assert queues[LOW] == (if p == LOW then q else s.queues[LOW]);
  }

  lemma {:induction false} Exchanged<T>(a: multiset<T>, b: multiset<T>, c: multiset<T>, d: multiset<T>, x: multiset<T>)
    ensures x + b + c + d + a == a + b + c + d + x
    ensures a + x + c + d + b == a + b + c + d + x
    ensures a + b + x + d + c == a + b + c + d + x
  {
    ExchangedFirst(a, b + c + d, x);
    ExchangedFirst(b, a + c + d, x);
    ExchangedFirst(c, a + b + d, x);
    assert x + b + c + d == x + (b + c + d) && a + b + c + d == a + (b + c + d);
    assert a + x + c + d == x + (a + c + d) && a + b + c + d == b + (a + c + d);
    assert a + b + x + d == x + (a + b + d) && a + b + c + d == c + (a + b + d);
  }

  lemma {:induction false} ExchangedFirst<T>(a: multiset<T>, rest: multiset<T>, x: multiset<T>)
    ensures (x + rest) + a == (a + rest) + x
  {
  }

  lemma Cancelled<T>(a: multiset<T>, b: multiset<T>, x: multiset<T>)
    requires a + x == b + x
    ensures a == b
  {
    assert forall v :: a[v] == (a + x)[v] - x[v];
    assert forall v :: b[v] == (b + x)[v] - x[v];
  }

  lemma {:induction false} LiveIdsAfterAppend(s: State, t: Task)
    requires |s.queues| == 3
    ensures LiveIds(Append(s, t)) == LiveIds(s) + multiset{t.id}
  {
    var p := Index(t.priority);
    LiveIdsReplaced(s, p, s.queues[p] + [t]);
    IdsAppend(s.queues[p], [t]);
    IdsOfOne(t);
    Cancelled(LiveIds(Append(s, t)), LiveIds(s) + multiset{t.id}, Ids(s.queues[p]));
  }

  lemma {:induction false} LiveIdsAfterTake(s: State, at: Place)
    requires |s.queues| == 3 && at.deque < 3 && at.position < |s.queues[at.deque]|
    ensures LiveIds(s) == LiveIds(Take(s, at)) + multiset{s.queues[at.deque][at.position].id}
  {
    var q := s.queues[at.deque];
    var rest := RemoveAt(q, at.position);
    LiveIdsReplaced(s, at.deque, rest);
    IdsAfterRemove(q, at.position);
    Cancelled(LiveIds(s), LiveIds(Take(s, at)) + multiset{q[at.position].id}, Ids(rest));
  }

  lemma {:induction false} LiveIdsAfterOccupy(s: State, t: Task)
    requires |s.queues| == 3
    ensures t.id !in s.inflight ==> LiveIds(Occupy(s, t)) == LiveIds(s) + multiset{t.id}
  {
    assert s.inflight[t.id := t.kind].Keys == s.inflight.Keys + {t.id};
  }

  /** Handing out a task of distinct live ids never meets its own id in flight, and leaves
      the live ids as they were. */
  lemma {:induction false} LiveIdsAfterDispatch(s: State, at: Place)
    requires |s.queues| == 3 && at.deque < 3 && at.position < |s.queues[at.deque]|
    requires Distinct(LiveIds(s))
    ensures var t := s.queues[at.deque][at.position];
            t.id !in s.inflight && LiveIds(Occupy(Take(s, at), t)) == LiveIds(s)
  {
    var t := s.queues[at.deque][at.position];
    LiveIdsAfterTake(s, at);
    assert LiveIds(s)[t.id] <= 1;
    assert multiset(s.inflight.Keys)[t.id] == 0;
    LiveIdsAfterOccupy(Take(s, at), t);
  }

  lemma {:induction false} LiveIdsAfterRelease(s: State, id: TaskId)
    requires |s.queues| == 3
    ensures LiveIds(Release(s, id)) <= LiveIds(s)
  {
    assert Release(s, id).inflight.Keys <= s.inflight.Keys;
  }

  lemma {:induction false} DistinctKept(cfg: QueueConfig, w: World, e: Event)
    requires WellFormed(w.s) && Distinct(LiveIds(w.s))
    requires e.Enqueue? ==> e.task.id !in LiveIds(w.s)
    ensures WellFormed(Step(cfg, w, e).s) && Distinct(LiveIds(Step(cfg, w, e).s))
    ensures var t := HandedOut(cfg, w.s, e); t.Some? ==> t.value.id !in w.s.inflight
  {
    StepWellFormed(cfg, w, e);
    match e
    case Enqueue(t) => LiveIdsAfterAppend(w.s, t);
    case Dequeue(_) =>
      if Served(cfg, w.s, e).Some? {
        ServedPlace(cfg, w, e);
        LiveIdsAfterDispatch(w.s, Served(cfg, w.s, e).value);
      }
    case Complete(id) => LiveIdsAfterRelease(w.s, id);
    case SetPaused(_) =>
  }

  /** Callers that never enqueue an id which is still queued or in flight lose no slot: then
      all counts are exact and no task is unaccounted for. */
  lemma {:induction false} FreshIdsSuffice(cfg: QueueConfig, w: World, es: seq<Event>)
    requires WellFormed(w.s) && Distinct(LiveIds(w.s))
    requires FreshIds(cfg, w, es)
    ensures NoLiveIdHandedOut(cfg, w, es)
    decreases |es|
  {
    if es != [] {
      DistinctKept(cfg, w, es[0]);
      FreshIdsSuffice(cfg, Step(cfg, w, es[0]), es[1..]);
    }
  }

  // ---- Lost slots stay lost ----------------------------------------------------

  /** In every continuation of every run, the slots lost so far count against the limit,
      whatever is completed. */
  lemma {:induction false} LostSlotsStayLost(cfg: QueueConfig, es: seq<Event>, more: seq<Event>, k: TaskType)
    ensures var s := Run(cfg, Run(cfg, START, es), more).s;
            Reuses(cfg, START, es, k) + |InFlightOf(s, k)| <= s.running[k] <= Limit(cfg, k)
  {
    RunAppend(cfg, START, es, more);
    SlotsOverRuns(cfg, es + more, k);
    ReusesAppend(cfg, START, es, more, k);
  }

  lemma {:induction false} RunAppend(cfg: QueueConfig, w: World, a: seq<Event>, b: seq<Event>)
    requires WellFormed(w.s)
    ensures Run(cfg, w, a + b) == Run(cfg, Run(cfg, w, a), b)
    decreases |a|
  {
    if a == [] {
      assert a + b == b;
    } else {
      assert (a + b)[1..] == a[1..] + b;
      StepWellFormed(cfg, w, a[0]);
      RunAppend(cfg, Step(cfg, w, a[0]), a[1..], b);
    }
  }

  lemma {:induction false} ReusesAppend(cfg: QueueConfig, w: World, a: seq<Event>, b: seq<Event>, k: TaskType)
    requires WellFormed(w.s)
    ensures Reuses(cfg, w, a + b, k) == Reuses(cfg, w, a, k) + Reuses(cfg, Run(cfg, w, a), b, k)
    decreases |a|
  {
    if a == [] {
      assert a + b == b;
    } else {
      assert (a + b)[1..] == a[1..] + b;
      StepWellFormed(cfg, w, a[0]);
      ReusesAppend(cfg, Step(cfg, w, a[0]), a[1..], b, k);
    }
  }

  ghost predicate Dead(cfg: QueueConfig, w: World, k: TaskType) {
    Invariant(cfg, w) && Leaked(w.overwritten, k) >= Limit(cfg, k)
  }

  /** The tasks handed out between two points of a run, none of them of type `k`. */
  ghost predicate NoneHandedOut(before: seq<Task>, after: seq<Task>, k: TaskType) {
    before <= after && forall i :: |before| <= i < |after| ==> after[i].kind != k
  }

  lemma {:induction false} DeadTypeIsFull(cfg: QueueConfig, w: World, k: TaskType)
    requires Dead(cfg, w, k)
    ensures w.s.running[k] >= Limit(cfg, k)
  {
    SlotsMeaning(cfg, w, k);
  }

  lemma {:induction false} DeadStep(cfg: QueueConfig, w: World, e: Event, k: TaskType)
    requires Dead(cfg, w, k)
    ensures Dead(cfg, Step(cfg, w, e), k)
    ensures NoneHandedOut(w.dispatched, Step(cfg, w, e).dispatched, k)
  {
    LeakedByStep(cfg, w, e, k);
    InvariantKept(cfg, w, e);
    DeadStepHandsOut(cfg, w, e, k);
  }

  lemma {:induction false} DeadStepHandsOut(cfg: QueueConfig, w: World, e: Event, k: TaskType)
    requires Dead(cfg, w, k)
    ensures NoneHandedOut(w.dispatched, Step(cfg, w, e).dispatched, k)
  {
    DeadTypeIsFull(cfg, w, k);
    StepByHandOut(cfg, w, e);
  }

  lemma {:induction false} DeadOverRuns(cfg: QueueConfig, w: World, es: seq<Event>, k: TaskType)
    requires Dead(cfg, w, k)
    ensures NoneHandedOut(w.dispatched, Run(cfg, w, es).dispatched, k)
    decreases |es|
  {
    if es != [] {
      DeadStep(cfg, w, es[0], k);
      DeadOverRuns(cfg, Step(cfg, w, es[0]), es[1..], k);
    }
  }

  /** Once as many slots of a type are lost as its limit allows, no task of that type is ever
      handed out again, whatever is enqueued, completed or resumed. */
  lemma {:induction false} LostTypeIsDead(cfg: QueueConfig, es: seq<Event>, more: seq<Event>, k: TaskType)
    requires Reuses(cfg, START, es, k) >= Limit(cfg, k)
    ensures var w := Run(cfg, START, es);
            NoneHandedOut(w.dispatched, Run(cfg, w, more).dispatched, k)
  {
    InvariantAtStart(cfg);
    InvariantOverRuns(cfg, START, es);
    LeakedIsReuses(cfg, START, es, k);
    DeadOverRuns(cfg, Run(cfg, START, es), more, k);
  }

  // ---- It happens ----------------------------------------------------------------

  /** Nothing queued, nothing paused; slots and in-flight table as given. */
  ghost predicate Idle(s: State, running: Slots, inflight: map<TaskId, TaskType>) {
    WellFormed(s) && s.queues == [[], [], []] && !s.paused && s.running == running && s.inflight == inflight
  }

  function More(running: Slots, k: TaskType): Slots {
    running[k := running[k] + 1]
  }

  function HandOutOnce(t: Task): seq<Event> {
    [Enqueue(t)] + [Dequeue(true)]
  }

  lemma {:induction false} RunOne(cfg: QueueConfig, w: World, e: Event)
    requires WellFormed(w.s)
    ensures WellFormed(Step(cfg, w, e).s) && Run(cfg, w, [e]) == Step(cfg, w, e)
  {
    StepWellFormed(cfg, w, e);
    assert [e][1..] == [];
  }

  lemma {:induction false} EnqueuedAlone(cfg: QueueConfig, s: State, t: Task)
    requires Idle(s, s.running, s.inflight) && cfg.maxQueueDepth > 0 && Ready(cfg, s.running, t)
    ensures Accepts(cfg, s) && WellFormed(Append(s, t))
    ensures Served(cfg, Append(s, t), Dequeue(true)) == Some(Place(Index(t.priority), 0))
  {
  }

  lemma {:induction false} TakenAlone(s: State, t: Task)
    requires Idle(s, s.running, s.inflight)
    ensures Append(s, t).queues[Index(t.priority)] == [t]
    ensures Take(Append(s, t), Place(Index(t.priority), 0)).queues == [[], [], []]
  {
    assert s.queues[Index(t.priority)] == [];
    assert RemoveAt([t], 0) == [];
  }

  /** A task goes straight through an idle queue. */
  lemma {:induction false} HandedOutOnce(cfg: QueueConfig, w: World, t: Task,
                                         running: Slots, inflight: map<TaskId, TaskType>)
    requires Idle(w.s, running, inflight) && cfg.maxQueueDepth > 0 && Ready(cfg, running, t)
    ensures Idle(Run(cfg, w, HandOutOnce(t)).s, More(running, t.kind), inflight[t.id := t.kind])
  {
    var w1 := Step(cfg, w, Enqueue(t));
    EnqueuedAlone(cfg, w.s, t);
    TakenAlone(w.s, t);
    RunAppend(cfg, w, [Enqueue(t)], [Dequeue(true)]);
    RunOne(cfg, w, Enqueue(t));
    RunOne(cfg, w1, Dequeue(true));
    ServedPlace(cfg, w1, Dequeue(true));
  }

  lemma {:induction false} CompletedAlone(cfg: QueueConfig, w: World, id: TaskId, kind: TaskType, running: Slots)
    requires Idle(w.s, More(running, kind), map[id := kind])
    ensures Idle(Run(cfg, w, [Complete(id)]).s, running, map[])
  {
    RunOne(cfg, w, Complete(id));
    assert More(running, kind)[kind := running[kind]] == running;
    assert map[id := kind] - {id} == map[];
  }

  /** Two tasks with one id are handed out, and the id is completed. */
  function Round(t: Task, other: Task): seq<Event> {
    HandOutOnce(t) + (HandOutOnce(other) + [Complete(t.id)])
  }

  /** That loses the slot of the first one. */
  lemma {:induction false} RoundLosesSlot(cfg: QueueConfig, w: World, t: Task, other: Task, running: Slots)
    requires Idle(w.s, running, map[]) && cfg.maxQueueDepth > 0 && t.id == other.id
    requires Ready(cfg, running, t) && Ready(cfg, More(running, t.kind), other)
    ensures Idle(Run(cfg, w, Round(t, other)).s, More(running, t.kind), map[])
  {
    var w1 := Run(cfg, w, HandOutOnce(t));
    var w2 := Run(cfg, w1, HandOutOnce(other));
    RunAppend(cfg, w, HandOutOnce(t), HandOutOnce(other) + [Complete(t.id)]);
    RunAppend(cfg, w1, HandOutOnce(other), [Complete(t.id)]);
    HandedOutOnce(cfg, w, t, running, map[]);
    HandedOutOnce(cfg, w1, other, More(running, t.kind), map[t.id := t.kind]);
    assert map[t.id := t.kind][other.id := other.kind] == map[t.id := other.kind];
    CompletedAlone(cfg, w2, t.id, other.kind, More(running, t.kind));
  }

  /** Two tasks of one id and one type: at the end nothing is queued or in flight, and yet a
      slot is taken. */
  lemma {:induction false} SameIdLosesSlot(cfg: QueueConfig, t: Task)
    requires cfg.maxQueueDepth > 0 && Limit(cfg, t.kind) >= 2
    ensures var s := Run(cfg, START, Round(t, t)).s;
            s.queues == [[], [], []] && s.inflight == map[] && s.running[t.kind] == 1
  {
    RoundLosesSlot(cfg, START, t, t, NO_TASK_RUNNING);
  }

  function Repeated(es: seq<Event>, n: nat): seq<Event> {
    if n == 0 then [] else es + Repeated(es, n - 1)
  }

  ghost predicate Rivals(cfg: QueueConfig, t: Task, other: Task) {
    t.id == other.id && t.kind != other.kind && cfg.maxQueueDepth > 0 && Limit(cfg, other.kind) > 0
  }

  function Taken(k: TaskType, n: nat): Slots {
    NO_TASK_RUNNING[k := n]
  }

  lemma {:induction false} RivalsReady(cfg: QueueConfig, t: Task, other: Task, n: nat)
    requires Rivals(cfg, t, other) && n < Limit(cfg, t.kind)
    ensures Ready(cfg, Taken(t.kind, n), t) && Ready(cfg, More(Taken(t.kind, n), t.kind), other)
    ensures More(Taken(t.kind, n), t.kind) == Taken(t.kind, n + 1)
  {
  }

  /** A piece of a run that takes every state with `holds(s, n)` to one with `holds(s, n + 1)`,
      for `n` below the limit. */
  ghost predicate CountsUp(cfg: QueueConfig, es: seq<Event>, holds: (State, nat) -> bool, limit: nat) {
    forall w: World, n: nat :: WellFormed(w.s) && holds(w.s, n) && n < limit ==> holds(Run(cfg, w, es).s, n + 1)
  }

  lemma {:induction false} RepeatedCountsUp(cfg: QueueConfig, w: World, es: seq<Event>,
                                            holds: (State, nat) -> bool, limit: nat, n: nat, m: nat)
    requires CountsUp(cfg, es, holds, limit) && n + m <= limit
    requires WellFormed(w.s) && holds(w.s, n)
    ensures holds(Run(cfg, w, Repeated(es, m)).s, n + m)
    decreases m
  {
    if m > 0 {
      RunAppend(cfg, w, es, Repeated(es, m - 1));
      RepeatedCountsUp(cfg, Run(cfg, w, es), es, holds, limit, n + 1, m - 1);
    }
  }

  lemma {:induction false} RivalsLoseSlots(cfg: QueueConfig, t: Task, other: Task)
    requires Rivals(cfg, t, other)
    ensures Idle(Run(cfg, START, Repeated(Round(t, other), Limit(cfg, t.kind))).s,
                 Taken(t.kind, Limit(cfg, t.kind)), map[])
  {
    var holds := (s: State, n: nat) => Idle(s, Taken(t.kind, n), map[]);
    forall w: World, n: nat | WellFormed(w.s) && holds(w.s, n) && n < Limit(cfg, t.kind)
      ensures holds(Run(cfg, w, Round(t, other)).s, n + 1)
    {
      RivalsReady(cfg, t, other, n);
      RoundLosesSlot(cfg, w, t, other, Taken(t.kind, n));
    }
    assert NO_TASK_RUNNING == Taken(t.kind, 0);
    RepeatedCountsUp(cfg, START, Round(t, other), holds, Limit(cfg, t.kind), 0, Limit(cfg, t.kind));
  }

  /** For every configuration with two usable types, a run with one reused id ends with an
      idle queue in which a type is dead: nothing is queued or in flight, all its slots are
      taken, and no task of it is handed out in any continuation. */
  lemma {:induction false} TypeCanDie(cfg: QueueConfig, t: Task, other: Task, more: seq<Event>)
    requires Rivals(cfg, t, other)
    ensures var w := Run(cfg, START, Repeated(Round(t, other), Limit(cfg, t.kind)));
            && Idle(w.s, Taken(t.kind, Limit(cfg, t.kind)), map[])
            && NoneHandedOut(w.dispatched, Run(cfg, w, more).dispatched, t.kind)
  {
    var es := Repeated(Round(t, other), Limit(cfg, t.kind));
    RivalsLoseSlots(cfg, t, other);
    SlotsOverRuns(cfg, es, t.kind);
    assert InFlightOf(Run(cfg, START, es).s, t.kind) == {};
    LostTypeIsDead(cfg, es, more, t.kind);
  }
}

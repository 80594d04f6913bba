/** What every run of the scheduler keeps: FIFO order inside each class of tasks, exact
    slot accounting, conservation of tasks, and the depth bound. */
module SchedulerInvariants {
  import opened Wrappers
  import opened Scheduler

  // ---- First in, first out per (priority, type) ------------------------------

  /** The tasks of `q` in deque `p` and of type `k`, in order. */
  function OfClass(q: seq<Task>, p: nat, k: TaskType): seq<Task> {
    if q == [] then []
    else (if Index(q[0].priority) == p && q[0].kind == k then [q[0]] else []) + OfClass(q[1..], p, k)
  }

  ghost predicate ClassFifo(w: World)
    requires |w.s.queues| == 3
  {
    forall p: nat, k: TaskType :: p < 3 ==>
      OfClass(w.dispatched, p, k) + OfClass(w.s.queues[p], p, k) == OfClass(w.accepted, p, k)
  }

  lemma {:induction false} OfClassAppend(a: seq<Task>, b: seq<Task>, p: nat, k: TaskType)
    ensures OfClass(a + b, p, k) == OfClass(a, p, k) + OfClass(b, p, k)
  {
    if a == [] {
      assert a + b == b;
    } else {
      assert (a + b)[1..] == a[1..] + b;
      OfClassAppend(a[1..], b, p, k);
    }
  }

  lemma {:induction false} OfClassNone(q: seq<Task>, p: nat, k: TaskType)
    requires forall i :: 0 <= i < |q| ==> q[i].kind != k || Index(q[i].priority) != p
    ensures OfClass(q, p, k) == []
  {
    if q != [] {
      OfClassNone(q[1..], p, k);
    }
  }

  lemma OfClassSingle(t: Task, p: nat, k: TaskType)
    ensures OfClass([t], p, k) == if Index(t.priority) == p && t.kind == k then [t] else []
  {
  }

  /** Taking task `i` out of `q` keeps every class in order, provided that the tasks ahead
      of it are of other types. */
  lemma {:induction false} RemovalKeepsClassOrder(q: seq<Task>, i: nat, p: nat, k: TaskType)
    requires i < |q|
    requires q[i].kind == k ==> forall j :: 0 <= j < i ==> q[j].kind != k
    ensures OfClass(q, p, k) == OfClass([q[i]], p, k) + OfClass(RemoveAt(q, i), p, k)
  {
    assert q == q[..i] + ([q[i]] + q[i + 1..]);
    OfClassAppend(q[..i], [q[i]] + q[i + 1..], p, k);
    OfClassAppend([q[i]], q[i + 1..], p, k);
    OfClassAppend(q[..i], q[i + 1..], p, k);
    if q[i].kind == k {
      OfClassNone(q[..i], p, k);
    } else {
      OfClassSingle(q[i], p, k);
    }
  }

  /** Tasks overtaken by the first ready task are blocked, so they are of other types. */
  lemma OvertakenAreOfOtherTypes(cfg: QueueConfig, running: Slots, q: seq<Task>, i: nat)
    requires FirstReady(cfg, running, q) == Some(i)
    ensures i < |q| && forall j :: 0 <= j < i ==> q[j].kind != q[i].kind
  {
  }

  lemma SelectedIsFirst(cfg: QueueConfig, s: State)
    requires WellFormed(s) && Select(cfg, s).Some?
    ensures var at := Select(cfg, s).value;
            at.deque < 3 && FirstReady(cfg, s.running, s.queues[at.deque]) == Some(at.position)
  {
  }

  /** Moving task `i` from the deque to the dispatched history. */
  lemma {:induction false} MoveKeepsClassOrder(done: seq<Task>, q: seq<Task>, i: nat, p: nat, k: TaskType)
    requires i < |q|
    requires forall j :: 0 <= j < i ==> q[j].kind != q[i].kind
    ensures OfClass(done + [q[i]], p, k) + OfClass(RemoveAt(q, i), p, k) == OfClass(done, p, k) + OfClass(q, p, k)
  {
    OfClassAppend(done, [q[i]], p, k);
    RemovalKeepsClassOrder(q, i, p, k);
  }

  lemma {:induction false} ForeignTaskIgnored(done: seq<Task>, t: Task, p: nat, k: TaskType)
    requires Index(t.priority) != p
    ensures OfClass(done + [t], p, k) == OfClass(done, p, k)
  {
    OfClassAppend(done, [t], p, k);
    OfClassSingle(t, p, k);
  }

  lemma ClassFifoAfterDispatch(cfg: QueueConfig, w: World, at: Place, p: nat, k: TaskType)
    requires WellFormed(w.s) && p < 3 && at.deque < 3 && at.position < |w.s.queues[at.deque]|
    requires FirstReady(cfg, w.s.running, w.s.queues[at.deque]) == Some(at.position)
    ensures var w' := DispatchFrom(w, at);
            OfClass(w'.dispatched, p, k) + OfClass(w'.s.queues[p], p, k)
            == OfClass(w.dispatched, p, k) + OfClass(w.s.queues[p], p, k)
  {
    var q := w.s.queues[at.deque];
    if p == at.deque {
      OvertakenAreOfOtherTypes(cfg, w.s.running, q, at.position);
      MoveKeepsClassOrder(w.dispatched, q, at.position, p, k);
    } else {
      ForeignTaskIgnored(w.dispatched, q[at.position], p, k);
    }
  }

  lemma ClassFifoKept(cfg: QueueConfig, w: World, e: Event)
    requires WellFormed(w.s) && ClassFifo(w)
    ensures |Step(cfg, w, e).s.queues| == 3 && ClassFifo(Step(cfg, w, e))
  {
    var w' := Step(cfg, w, e);
    StepWellFormed(cfg, w, e);
    forall p: nat, k: TaskType | p < 3
      ensures OfClass(w'.dispatched, p, k) + OfClass(w'.s.queues[p], p, k) == OfClass(w'.accepted, p, k)
    {
      match e
      case Enqueue(t) =>
        OfClassAppend(w.accepted, [t], p, k);
        OfClassAppend(w.s.queues[p], [t], p, k);
        OfClassSingle(t, p, k);
      case Dequeue(accepts) =>
        var pick := Pick(cfg, accepts, w.s);
        if pick.Some? {
          SelectedIsFirst(cfg, w.s);
          ClassFifoAfterDispatch(cfg, w, pick.value, p, k);
        }
      case Complete(_) =>
      case SetPaused(_) =>
    }
  }

  // ---- Slots -----------------------------------------------------------------

  /** In-flight ids of type `k`. */
  function InFlight(m: map<TaskId, Task>, k: TaskType): set<TaskId> {
    set id | id in m && m[id].kind == k
  }

  /** Slots lost for good: tasks of type `k` whose in-flight entry was overwritten. */
  function Leaked(lost: seq<Task>, k: TaskType): nat {
    if lost == [] then 0
    else Leaked(lost[..|lost| - 1], k) + One(lost[|lost| - 1].kind == k)
  }

  /** Every id maps to a task that carries it. */
  ghost predicate Keyed(m: map<TaskId, Task>) {
    forall id :: id in m ==> m[id].id == id
  }

  ghost predicate TableMatches(w: World) {
    && Keyed(w.outstanding)
    && w.s.inflight.Keys == w.outstanding.Keys
    && forall id :: id in w.outstanding ==> w.s.inflight[id] == w.outstanding[id].kind
  }

  ghost predicate SlotsOf(cfg: QueueConfig, w: World, k: TaskType) {
    && w.s.running[k] <= Limit(cfg, k)
    && w.s.running[k] == |InFlight(w.outstanding, k)| + Leaked(w.overwritten, k)
  }

  ghost predicate SlotsExact(cfg: QueueConfig, w: World) {
    TableMatches(w) && forall k: TaskType :: SlotsOf(cfg, w, k)
  }

  lemma LeakedSnoc(lost: seq<Task>, t: Task, k: TaskType)
    ensures Leaked(lost + [t], k) == Leaked(lost, k) + One(t.kind == k)
  {
  }

  lemma InFlightAfterInsert(m: map<TaskId, Task>, t: Task, k: TaskType)
    ensures |InFlight(m[t.id := t], k)| + One(t.id in m && m[t.id].kind == k)
         == |InFlight(m, k)| + One(t.kind == k)
  {
    var rest := InFlight(m, k) - {t.id};
    assert InFlight(m[t.id := t], k) == if t.kind == k then rest + {t.id} else rest;
  }

  lemma InFlightAfterRemove(m: map<TaskId, Task>, id: TaskId, k: TaskType)
    ensures |InFlight(m - {id}, k)| + One(id in m && m[id].kind == k) == |InFlight(m, k)|
  {
    assert InFlight(m - {id}, k) == InFlight(m, k) - {id};
  }

  lemma SlotsOfKeptByDispatch(cfg: QueueConfig, w: World, at: Place, k: TaskType)
    requires SlotsOf(cfg, w, k)
    requires at.deque < |w.s.queues| && at.position < |w.s.queues[at.deque]|
    requires Ready(cfg, w.s.running, w.s.queues[at.deque][at.position])
    ensures SlotsOf(cfg, DispatchFrom(w, at), k)
  {
    var t := w.s.queues[at.deque][at.position];
    InFlightAfterInsert(w.outstanding, t, k);
    if t.id in w.outstanding {
      LeakedSnoc(w.overwritten, w.outstanding[t.id], k);
    }
  }

  lemma TableMatchesAfterDispatch(w: World, at: Place)
    requires TableMatches(w)
    requires at.deque < |w.s.queues| && at.position < |w.s.queues[at.deque]|
    ensures TableMatches(DispatchFrom(w, at))
  {
  }

  lemma BusyTypeHasSlot(cfg: QueueConfig, w: World, id: TaskId)
    requires TableMatches(w) && id in w.s.inflight && SlotsOf(cfg, w, w.s.inflight[id])
    ensures w.s.running[w.s.inflight[id]] > 0
  {
    assert id in InFlight(w.outstanding, w.s.inflight[id]);
  }

  lemma SlotsKeptByCompletion(cfg: QueueConfig, w: World, id: TaskId)
    requires SlotsExact(cfg, w)
    ensures SlotsExact(cfg, CompleteId(w, id))
  {
    var w' := CompleteId(w, id);
    if id in w.s.inflight {
      assert SlotsOf(cfg, w, w.s.inflight[id]);
      BusyTypeHasSlot(cfg, w, id);
    } else {
      assert w.outstanding - {id} == w.outstanding;
    }
    forall k: TaskType ensures SlotsOf(cfg, w', k) {
      assert SlotsOf(cfg, w, k);
      InFlightAfterRemove(w.outstanding, id, k);
    }
  }

  lemma SlotsKept(cfg: QueueConfig, w: World, e: Event)
    requires WellFormed(w.s) && SlotsExact(cfg, w)
    ensures SlotsExact(cfg, Step(cfg, w, e))
  {
    match e
    case Dequeue(accepts) =>
      SelectIsExact(cfg, w.s);
      var pick := Pick(cfg, accepts, w.s);
      if pick.Some? {
        assert ReadyAt(cfg, w.s, pick.value.deque, pick.value.position);
        TableMatchesAfterDispatch(w, pick.value);
        forall k: TaskType ensures SlotsOf(cfg, DispatchFrom(w, pick.value), k) {
          assert SlotsOf(cfg, w, k);
          SlotsOfKeptByDispatch(cfg, w, pick.value, k);
        }
      }
    case Complete(id) => SlotsKeptByCompletion(cfg, w, id);
    case _ =>
      assert forall k :: SlotsOf(cfg, w, k) ==> SlotsOf(cfg, Step(cfg, w, e), k);
  }

  // ---- Conservation ----------------------------------------------------------

  ghost function Queued(s: State): multiset<Task>
    requires |s.queues| == 3
  {
    multiset(s.queues[HIGH]) + multiset(s.queues[NORMAL]) + multiset(s.queues[LOW])
  }

  /** Every accepted task is still queued or was dispatched. */
  ghost predicate QueuedOrDispatched(s: State, accepted: seq<Task>, dispatched: seq<Task>)
    requires |s.queues| == 3
  {
    multiset(accepted) == Queued(s) + multiset(dispatched)
  }

  /** Every dispatched task is in flight, completed, or lost its entry. */
  ghost predicate Accounted(dispatched: seq<Task>, table: map<TaskId, Task>,
                            completed: seq<Task>, overwritten: seq<Task>) {
    multiset(dispatched) == multiset(table.Values) + multiset(completed) + multiset(overwritten)
  }

  ghost predicate Conserved(w: World)
    requires |w.s.queues| == 3
  {
    && QueuedOrDispatched(w.s, w.accepted, w.dispatched)
    && Accounted(w.dispatched, w.outstanding, w.completed, w.overwritten)
  }

  lemma RemoveAtMultiset<T>(q: seq<T>, i: nat)
    requires i < |q|
    ensures multiset(q) == multiset(RemoveAt(q, i)) + multiset{q[i]}
  {
    assert q == q[..i] + [q[i]] + q[i + 1..];
  }

  /** A task is a value of a keyed table iff it is the entry of its own id. */
  lemma ValuesByKey(m: map<TaskId, Task>)
    requires Keyed(m)
    ensures forall v :: v in m.Values <==> v.id in m && m[v.id] == v
  {
  }

  lemma ValuesAfterRemove(m: map<TaskId, Task>, id: TaskId)
    requires Keyed(m) && id in m
    ensures multiset(m.Values) == multiset((m - {id}).Values) + multiset{m[id]}
  {
    ValuesByKey(m);
    ValuesByKey(m - {id});
    assert m.Values == (m - {id}).Values + {m[id]};
  }

  lemma ValuesAfterNew(m: map<TaskId, Task>, t: Task)
    requires Keyed(m) && t.id !in m
    ensures multiset(m[t.id := t].Values) == multiset(m.Values) + multiset{t}
  {
    var m' := m[t.id := t];
    assert m' - {t.id} == m;
    ValuesAfterRemove(m', t.id);
  }

  lemma ValuesAfterInsert(m: map<TaskId, Task>, t: Task)
    requires Keyed(m)
    ensures multiset(m[t.id := t].Values) + (if t.id in m then multiset{m[t.id]} else multiset{})
         == multiset(m.Values) + multiset{t}
  {
    if t.id in m {
      ValuesAfterRemove(m, t.id);
      ValuesAfterNew(m - {t.id}, t);
      assert (m - {t.id})[t.id := t] == m[t.id := t];
    } else {
      ValuesAfterNew(m, t);
    }
  }

  lemma QueuedAfterTake(s: State, at: Place)
    requires |s.queues| == 3 && at.deque < 3 && at.position < |s.queues[at.deque]|
    ensures Queued(s) == Queued(Take(s, at)) + multiset{s.queues[at.deque][at.position]}
  {
    RemoveAtMultiset(s.queues[at.deque], at.position);
  }

  lemma QueuedOrDispatchedAfterTake(s: State, at: Place, accepted: seq<Task>, dispatched: seq<Task>)
    requires |s.queues| == 3 && at.deque < 3 && at.position < |s.queues[at.deque]|
    requires QueuedOrDispatched(s, accepted, dispatched)
    ensures QueuedOrDispatched(Occupy(Take(s, at), s.queues[at.deque][at.position]), accepted,
                               dispatched + [s.queues[at.deque][at.position]])
  {
    QueuedAfterTake(s, at);
    assert Queued(Occupy(Take(s, at), s.queues[at.deque][at.position])) == Queued(Take(s, at));
  }

  lemma AccountedAfterDispatch(dispatched: seq<Task>, table: map<TaskId, Task>,
                               completed: seq<Task>, overwritten: seq<Task>, t: Task)
    requires Keyed(table) && Accounted(dispatched, table, completed, overwritten)
    ensures Accounted(dispatched + [t], table[t.id := t], completed,
                      if t.id in table then overwritten + [table[t.id]] else overwritten)
  {
    ValuesAfterInsert(table, t);
    var lost := if t.id in table then multiset{table[t.id]} else multiset{};
    var after := multiset(table[t.id := t].Values);
    calc {
      multiset(dispatched + [t]);
      multiset(table.Values) + multiset(completed) + multiset(overwritten) + multiset{t};
      (multiset(table.Values) + multiset{t}) + (multiset(completed) + multiset(overwritten));
      (after + lost) + (multiset(completed) + multiset(overwritten));
      after + multiset(completed) + (multiset(overwritten) + lost);
    }
  }

  lemma ConservedByDispatch(w: World, at: Place)
    requires |w.s.queues| == 3 && Keyed(w.outstanding) && Conserved(w)
    requires at.deque < 3 && at.position < |w.s.queues[at.deque]|
    ensures Conserved(DispatchFrom(w, at))
  {
    QueuedOrDispatchedAfterTake(w.s, at, w.accepted, w.dispatched);
    AccountedAfterDispatch(w.dispatched, w.outstanding, w.completed, w.overwritten,
                           w.s.queues[at.deque][at.position]);
  }

  lemma AccountedAfterCompletion(dispatched: seq<Task>, table: map<TaskId, Task>,
                                 completed: seq<Task>, overwritten: seq<Task>, id: TaskId)
    requires Keyed(table) && Accounted(dispatched, table, completed, overwritten)
    ensures Accounted(dispatched, table - {id},
                      if id in table then completed + [table[id]] else completed, overwritten)
  {
    if id in table {
      ValuesAfterRemove(table, id);
    } else {
      assert table - {id} == table;
    }
  }

  lemma ConservedByCompletion(w: World, id: TaskId)
    requires |w.s.queues| == 3 && Keyed(w.outstanding) && Conserved(w)
    ensures Conserved(CompleteId(w, id))
  {
    assert Queued(CompleteId(w, id).s) == Queued(w.s);
    AccountedAfterCompletion(w.dispatched, w.outstanding, w.completed, w.overwritten, id);
  }

  lemma ConservedByAppend(w: World, t: Task)
    requires |w.s.queues| == 3 && Conserved(w)
    ensures Conserved(w.(s := Append(w.s, t), accepted := w.accepted + [t]))
  {
  }

  lemma ConservedKept(cfg: QueueConfig, w: World, e: Event)
    requires WellFormed(w.s) && Keyed(w.outstanding) && Conserved(w)
    ensures |Step(cfg, w, e).s.queues| == 3 && Conserved(Step(cfg, w, e))
  {
    match e
    case Enqueue(t) => ConservedByAppend(w, t);
    case Dequeue(accepts) =>
      SelectIsExact(cfg, w.s);
      var pick := Pick(cfg, accepts, w.s);
      if pick.Some? {
        ConservedByDispatch(w, pick.value);
      }
    case Complete(id) => ConservedByCompletion(w, id);
    case SetPaused(_) =>
  }

  // ---- All of it, over every run ---------------------------------------------

  ghost predicate Invariant(cfg: QueueConfig, w: World) {
    && WellFormed(w.s)
    && TotalQueued(w.s) <= cfg.maxQueueDepth
    && ClassFifo(w)
    && SlotsExact(cfg, w)
    && Conserved(w)
  }

  lemma InvariantAtStart(cfg: QueueConfig)
    ensures Invariant(cfg, START)
  {
  }

  lemma InvariantKept(cfg: QueueConfig, w: World, e: Event)
    requires Invariant(cfg, w)
    ensures Invariant(cfg, Step(cfg, w, e))
  {
    StepWellFormed(cfg, w, e);
    SelectIsExact(cfg, w.s);
    ClassFifoKept(cfg, w, e);
    SlotsKept(cfg, w, e);
    ConservedKept(cfg, w, e);
  }

  lemma {:induction false} InvariantOverRuns(cfg: QueueConfig, w: World, es: seq<Event>)
    requires Invariant(cfg, w)
    ensures Invariant(cfg, Run(cfg, w, es))
    decreases |es|
  {
    if es != [] {
      InvariantKept(cfg, w, es[0]);
      InvariantOverRuns(cfg, Step(cfg, w, es[0]), es[1..]);
    }
  }

  /** Class-wise FIFO: tasks of one priority and one type leave in the order in which they
      were accepted, whatever overtakes them. */
  lemma FifoOverRuns(cfg: QueueConfig, es: seq<Event>, p: nat, k: TaskType)
    requires p < 3
    ensures var w := Run(cfg, START, es);
            && OfClass(w.dispatched, p, k) <= OfClass(w.accepted, p, k)
            && OfClass(w.s.queues[p], p, k) == OfClass(w.accepted, p, k)[|OfClass(w.dispatched, p, k)|..]
  {
    InvariantAtStart(cfg);
    InvariantOverRuns(cfg, START, es);
    var w := Run(cfg, START, es);
    assert OfClass(w.dispatched, p, k) + OfClass(w.s.queues[p], p, k) == OfClass(w.accepted, p, k);
  }

  lemma {:induction false} LeakedPositive(lost: seq<Task>, k: TaskType)
    ensures Leaked(lost, k) > 0 <==> exists i :: 0 <= i < |lost| && lost[i].kind == k
  {
    if lost != [] {
      LeakedPositive(lost[..|lost| - 1], k);
      assert lost == lost[..|lost| - 1] + [lost[|lost| - 1]];
      if i :| 0 <= i < |lost| && lost[i].kind == k {
        if i < |lost| - 1 {
          assert lost[..|lost| - 1][i].kind == k;
        }
      }
    }
  }

  /** The ids in flight as tasks of type `k`. */
  function InFlightOf(s: State, k: TaskType): set<TaskId> {
    set id | id in s.inflight && s.inflight[id] == k
  }

  /** A type has one slot taken per task in flight and one per overwritten entry. */
  lemma {:induction false} SlotsMeaning(cfg: QueueConfig, w: World, k: TaskType)
    requires SlotsExact(cfg, w)
    ensures w.s.running[k] == |InFlightOf(w.s, k)| + Leaked(w.overwritten, k) <= Limit(cfg, k)
  {
    assert SlotsOf(cfg, w, k);
    assert InFlight(w.outstanding, k) == InFlightOf(w.s, k);
  }

  /** Conservation and the depth bound. */
  lemma ConservationOverRuns(cfg: QueueConfig, es: seq<Event>)
    ensures var w := Run(cfg, START, es);
            && multiset(w.accepted) == Queued(w.s) + multiset(w.outstanding.Values)
                 + multiset(w.completed) + multiset(w.overwritten)
            && TotalQueued(w.s) <= cfg.maxQueueDepth
  {
    InvariantAtStart(cfg);
    InvariantOverRuns(cfg, START, es);
  }

  lemma ReleaseFreesSlot(cfg: QueueConfig, w: World, id: TaskId)
    requires SlotsExact(cfg, w) && id in w.s.inflight
    ensures var kind := w.s.inflight[id];
            && w.s.running[kind] > 0
            && Release(w.s, id).running == w.s.running[kind := w.s.running[kind] - 1]
            && id !in Release(w.s, id).inflight
  {
    assert SlotsOf(cfg, w, w.s.inflight[id]);
    BusyTypeHasSlot(cfg, w, id);
  }

  /** The test for a positive count in `taskCompleted` never fails: completing a known id
      always gives its slot back. */
  lemma CompletionFreesSlot(cfg: QueueConfig, es: seq<Event>, id: TaskId)
    requires id in Run(cfg, START, es).s.inflight
    ensures var s := Run(cfg, START, es).s;
            var kind := s.inflight[id];
            && s.running[kind] > 0
            && Release(s, id).running == s.running[kind := s.running[kind] - 1]
            && id !in Release(s, id).inflight
  {
    InvariantAtStart(cfg);
    InvariantOverRuns(cfg, START, es);
    ReleaseFreesSlot(cfg, Run(cfg, START, es), id);
  }
}

/** The task scheduler of daemon/src/queue.cpp as a state machine: the fields of
    `TaskQueue`, and one function per critical section.  The class in TaskQueue.dfy
    refines these functions; the modules after this one prove what they promise. */
module Scheduler {
  import opened Wrappers

  datatype TaskType = Watch | Interactive | Export
  datatype Priority = High | Normal | Low

  /** `std::uint64_t`; ids are only ever compared. */
  type TaskId = n: nat | n < 0x1_0000_0000_0000_0000

  datatype Task = Task(id: TaskId, kind: TaskType, priority: Priority, prompt: string)

  datatype QueueConfig = QueueConfig(maxQueueDepth: nat, maxConcurrent: map<TaskType, nat>)

  /** `running_` has an entry for every task type from the constructor on. */
  type Slots = m: map<TaskType, nat> | forall t: TaskType :: t in m
    witness map t: TaskType :: 0

  const HIGH: nat := 0
  const NORMAL: nat := 1
  const LOW: nat := 2

  function Index(p: Priority): nat {
    match p
    case High => HIGH
    case Normal => NORMAL
    case Low => LOW
  }

  function OtherDeque(p: nat): nat {
    if p == NORMAL then LOW else NORMAL
  }

  datatype State = State(
    queues: seq<seq<Task>>,
    running: Slots,
    inflight: map<TaskId, TaskType>,
    paused: bool,
    rr: nat
  )

  ghost predicate WellFormed(s: State) {
    && |s.queues| == 3
    && s.rr in {NORMAL, LOW}
    && forall p, i :: 0 <= p < 3 && 0 <= i < |s.queues[p]| ==> Index(s.queues[p][i].priority) == p
  }

  const NO_TASK_RUNNING: Slots := map t: TaskType :: 0
  const INITIAL: State := State([[], [], []], NO_TASK_RUNNING, map[], false, NORMAL)

  /** A type that the configuration does not mention has no slots at all. */
  function Limit(cfg: QueueConfig, t: TaskType): nat {
    if t in cfg.maxConcurrent then cfg.maxConcurrent[t] else 0
  }

  predicate Ready(cfg: QueueConfig, running: Slots, t: Task) {
    running[t.kind] < Limit(cfg, t.kind)
  }

  function TotalQueued(s: State): nat
    requires |s.queues| == 3
  {
    |s.queues[HIGH]| + |s.queues[NORMAL]| + |s.queues[LOW]|
  }

  // ---- Selection -------------------------------------------------------------

  /** Position of the first task of `q` whose type has a free slot. */
  function FirstReady(cfg: QueueConfig, running: Slots, q: seq<Task>): (r: Option<nat>)
    ensures r.Some? ==>
              && r.value < |q|
              && Ready(cfg, running, q[r.value])
              && forall j :: 0 <= j < r.value ==> !Ready(cfg, running, q[j])
    ensures r.None? ==> forall j :: 0 <= j < |q| ==> !Ready(cfg, running, q[j])
  {
    if q == [] then None
    else if Ready(cfg, running, q[0]) then Some(0)
    else
      match FirstReady(cfg, running, q[1..])
      case None => None
      case Some(i) => Some(i + 1)
  }

  datatype Place = Place(deque: nat, position: nat)

  /** Where `popNextTaskUnlocked` finds the next task. */
  function Select(cfg: QueueConfig, s: State): Option<Place>
    requires WellFormed(s)
  {
    var other := OtherDeque(s.rr);
    match (FirstReady(cfg, s.running, s.queues[HIGH]),
           FirstReady(cfg, s.running, s.queues[s.rr]),
           FirstReady(cfg, s.running, s.queues[other]))
    case (Some(i), _, _) => Some(Place(HIGH, i))
    case (None, Some(i), _) => Some(Place(s.rr, i))
    case (None, None, Some(i)) => Some(Place(other, i))
    case (None, None, None) => None
  }

  ghost predicate ReadyAt(cfg: QueueConfig, s: State, p: nat, i: nat) {
    p < |s.queues| && i < |s.queues[p]| && Ready(cfg, s.running, s.queues[p][i])
  }

  ghost predicate SomeReady(cfg: QueueConfig, s: State) {
    exists p: nat, i: nat :: ReadyAt(cfg, s, p, i)
  }

  /** The order the scheduler promises, independently of how it searches: nothing ready is
      ahead in the chosen deque, High comes before the other two, and of those two the one
      `rr_index_` points at comes first. */
  ghost predicate ServedNext(cfg: QueueConfig, s: State, at: Place) {
    && ReadyAt(cfg, s, at.deque, at.position)
    && (forall i: nat :: ReadyAt(cfg, s, at.deque, i) ==> at.position <= i)
    && (at.deque != HIGH ==> forall i: nat :: !ReadyAt(cfg, s, HIGH, i))
    && (at.deque != HIGH && at.deque != s.rr ==> forall i: nat :: !ReadyAt(cfg, s, s.rr, i))
  }

  /** Selection is total and exact: it finds a task iff some queued task is ready, and
      the place it finds is the one and only place that may be served next. */
  lemma SelectIsExact(cfg: QueueConfig, s: State)
    requires WellFormed(s)
    ensures Select(cfg, s).Some? <==> SomeReady(cfg, s)
    ensures forall at :: Select(cfg, s) == Some(at) <==> ServedNext(cfg, s, at)
  {
    match Select(cfg, s)
    case Some(at) =>
      assert ReadyAt(cfg, s, at.deque, at.position);
      forall at' | ServedNext(cfg, s, at') ensures at' == at {
        assert at'.deque in {HIGH, s.rr, OtherDeque(s.rr)};
      }
    case None =>
  }

  // ---- Critical sections -----------------------------------------------------

  function RemoveAt<T>(q: seq<T>, i: nat): seq<T>
    requires i < |q|
  {
    q[..i] + q[i + 1..]
  }

  /** What `popNextTaskUnlocked` leaves behind: the task is gone from its deque, and a
      task taken from Normal or Low points `rr_index_` at the deque not served. */
  function Take(s: State, at: Place): State
    requires at.deque < |s.queues| && at.position < |s.queues[at.deque]|
  {
    s.(queues := s.queues[at.deque := RemoveAt(s.queues[at.deque], at.position)],
       rr := if at.deque == HIGH then s.rr else OtherDeque(at.deque))
  }

  function Occupy(s: State, t: Task): State {
    s.(running := s.running[t.kind := s.running[t.kind] + 1],
       inflight := s.inflight[t.id := t.kind])
  }

  function Append(s: State, t: Task): State
    requires |s.queues| == 3
  {
    var p := Index(t.priority);
    s.(queues := s.queues[p := s.queues[p] + [t]])
  }

  function Release(s: State, id: TaskId): State {
    if id !in s.inflight then s
    else
      var kind := s.inflight[id];
      s.(running := if s.running[kind] > 0 then s.running[kind := s.running[kind] - 1] else s.running,
         inflight := s.inflight - {id})
  }

  /** The predicate a dequeuing thread waits for.  `accepts` is the verdict of the guard:
      false when there is no guard or when it refuses work. */
  ghost predicate MayRun(cfg: QueueConfig, accepts: bool, s: State) {
    !s.paused && accepts && SomeReady(cfg, s)
  }

  /** One pass of the wait loop in `dequeue`: `None` means the caller sleeps. */
  function Pick(cfg: QueueConfig, accepts: bool, s: State): Option<Place>
    requires WellFormed(s)
  {
    if s.paused || !accepts then None else Select(cfg, s)
  }

  /** A waiting caller that finds its predicate true always gets a task, so the
      optional that `dequeue` dereferences is never empty. */
  lemma PickIsTotal(cfg: QueueConfig, accepts: bool, s: State)
    requires WellFormed(s)
    ensures MayRun(cfg, accepts, s) <==> Pick(cfg, accepts, s).Some?
    ensures Pick(cfg, accepts, s).Some? ==> ServedNext(cfg, s, Pick(cfg, accepts, s).value)
  {
    SelectIsExact(cfg, s);
  }

  // ---- Runs with their history -----------------------------------------------

  datatype Event =
    | Enqueue(task: Task)
    | Dequeue(accepts: bool)
    | Complete(id: TaskId)
    | SetPaused(paused: bool)

  /** The scheduler with what has happened so far: tasks accepted and dispatched in order,
      the task behind each in-flight id, tasks completed, and tasks whose in-flight entry
      was overwritten because their id was dispatched again before it completed. */
  datatype World = World(
    s: State,
    accepted: seq<Task>,
    dispatched: seq<Task>,
    outstanding: map<TaskId, Task>,
    completed: seq<Task>,
    overwritten: seq<Task>
  )

  const START: World := World(INITIAL, [], [], map[], [], [])

  function Accepts(cfg: QueueConfig, s: State): bool
    requires |s.queues| == 3
  {
    TotalQueued(s) < cfg.maxQueueDepth
  }

  /** The bookkeeping of `dequeue` for the task `t` it is about to return. */
  function HandOut(w: World, t: Task): World {
    w.(s := Occupy(w.s, t),
       dispatched := w.dispatched + [t],
       outstanding := w.outstanding[t.id := t],
       overwritten := if t.id in w.outstanding then w.overwritten + [w.outstanding[t.id]] else w.overwritten)
  }

  function DispatchFrom(w: World, at: Place): World
    requires at.deque < |w.s.queues| && at.position < |w.s.queues[at.deque]|
  {
    HandOut(w.(s := Take(w.s, at)), w.s.queues[at.deque][at.position])
  }

  function CompleteId(w: World, id: TaskId): World {
    w.(s := Release(w.s, id),
       completed := if id in w.outstanding then w.completed + [w.outstanding[id]] else w.completed,
       outstanding := w.outstanding - {id})
  }

  function Step(cfg: QueueConfig, w: World, e: Event): World
    requires WellFormed(w.s)
  {
    match e
    case Enqueue(t) =>
      if Accepts(cfg, w.s) then w.(s := Append(w.s, t), accepted := w.accepted + [t]) else w
    case Dequeue(accepts) =>
      (match Pick(cfg, accepts, w.s)
       case Some(at) =>
         SelectIsExact(cfg, w.s);
         DispatchFrom(w, at)
       case None => w)
    case Complete(id) => CompleteId(w, id)
    case SetPaused(b) => w.(s := w.s.(paused := b))
  }

  lemma TakeWellFormed(s: State, at: Place)
    requires WellFormed(s) && at.deque < 3 && at.position < |s.queues[at.deque]|
    ensures WellFormed(Take(s, at))
  {
  }

  lemma StepWellFormed(cfg: QueueConfig, w: World, e: Event)
    requires WellFormed(w.s)
    ensures WellFormed(Step(cfg, w, e).s)
  {
    match e
    case Dequeue(accepts) =>
      var pick := Pick(cfg, accepts, w.s);
      if pick.Some? {
        SelectIsExact(cfg, w.s);
        TakeWellFormed(w.s, pick.value);
      }
    case _ =>
  }

  function Run(cfg: QueueConfig, w: World, es: seq<Event>): (r: World)
    requires WellFormed(w.s)
    ensures WellFormed(r.s)
    decreases |es|
  {
    if es == [] then w
    else
      StepWellFormed(cfg, w, es[0]);
      Run(cfg, Step(cfg, w, es[0]), es[1..])
  }
}

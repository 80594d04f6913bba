/** How long a Normal or Low task can be passed over.  The task is followed by its place
    in its deque, so equal tasks are not confused with each other. */
module BoundedBypass {
  import opened Wrappers
  import opened Scheduler

  /** The place served by an event, if the event dispatches a task. */
  function Served(cfg: QueueConfig, s: State, e: Event): Option<Place>
    requires WellFormed(s)
  {
    if e.Dequeue? then Pick(cfg, e.accepts, s) else None
  }

  /** Where the task at place (p, i) is after an event: `None` once it is dispatched. */
  function Moved(cfg: QueueConfig, s: State, e: Event, p: nat, i: nat): Option<nat>
    requires WellFormed(s)
  {
    match Served(cfg, s, e)
    case None => Some(i)
    case Some(at) =>
      if at.deque != p || i < at.position then Some(i)
      else if at.position == i then None
      else Some(i - 1)
  }

  lemma ServedPlace(cfg: QueueConfig, w: World, e: Event)
    requires WellFormed(w.s) && Served(cfg, w.s, e).Some?
    ensures var at := Served(cfg, w.s, e).value;
            && at.deque < 3 && at.position < |w.s.queues[at.deque]|
            && ServedNext(cfg, w.s, at)
            && Step(cfg, w, e) == DispatchFrom(w, at)
  {
  }

  /** `Moved` follows the task: it is still at the new place, or it is what was handed out. */
  lemma MovedFollows(cfg: QueueConfig, w: World, e: Event, p: nat, i: nat)
    requires WellFormed(w.s) && p < 3 && i < |w.s.queues[p]|
    ensures var w' := Step(cfg, w, e);
            match Moved(cfg, w.s, e, p, i)
            case Some(j) => p < |w'.s.queues| && j < |w'.s.queues[p]| && w'.s.queues[p][j] == w.s.queues[p][i]
            case None => w'.dispatched == w.dispatched + [w.s.queues[p][i]]
  {
    if Served(cfg, w.s, e).Some? {
      ServedPlace(cfg, w, e);
      MovedByDispatch(cfg, w, e, p, i);
    }
  }

  lemma MovedByDispatch(cfg: QueueConfig, w: World, e: Event, p: nat, i: nat)
    requires WellFormed(w.s) && p < 3 && i < |w.s.queues[p]|
    requires Served(cfg, w.s, e).Some?
    requires var at := Served(cfg, w.s, e).value; at.deque < 3 && at.position < |w.s.queues[at.deque]|
    ensures var w' := DispatchFrom(w, Served(cfg, w.s, e).value);
            match Moved(cfg, w.s, e, p, i)
            case Some(j) => j < |w'.s.queues[p]| && w'.s.queues[p][j] == w.s.queues[p][i]
            case None => w'.dispatched == w.dispatched + [w.s.queues[p][i]]
  {
  }

  /** The place after a whole run. */
  function Waiting(cfg: QueueConfig, w: World, es: seq<Event>, p: nat, i: nat): Option<nat>
    requires WellFormed(w.s)
    decreases |es|
  {
    if es == [] then Some(i)
    else
      match Moved(cfg, w.s, es[0], p, i)
      case None => None
      case Some(j) =>
        StepWellFormed(cfg, w, es[0]);
        Waiting(cfg, Step(cfg, w, es[0]), es[1..], p, j)
  }

  /** Tasks handed out of the Normal and Low deques during a run. */
  function NonHighDispatches(cfg: QueueConfig, w: World, es: seq<Event>): nat
    requires WellFormed(w.s)
    decreases |es|
  {
    if es == [] then 0
    else
      var at := Served(cfg, w.s, es[0]);
      StepWellFormed(cfg, w, es[0]);
      (if at.Some? && at.value.deque != HIGH then 1 else 0)
      + NonHighDispatches(cfg, Step(cfg, w, es[0]), es[1..])
  }

  /** As long as the task waits, its type has a free slot whenever a task is handed out. */
  ghost predicate SlotFreeAtDispatches(cfg: QueueConfig, w: World, es: seq<Event>, p: nat, i: nat)
    requires WellFormed(w.s) && p < 3 && i < |w.s.queues[p]|
    decreases |es|
  {
    es == [] ||
    (&& (Served(cfg, w.s, es[0]).Some? ==> ReadyAt(cfg, w.s, p, i))
     && match Moved(cfg, w.s, es[0], p, i)
        case None => true
        case Some(j) =>
          StepWellFormed(cfg, w, es[0]);
          MovedFollows(cfg, w, es[0], p, i);
          SlotFreeAtDispatches(cfg, Step(cfg, w, es[0]), es[1..], p, j))
  }

  function Turns(s: State, p: nat, i: nat): nat {
    2 * i + if s.rr == p then 0 else 1
  }

  /** A waiting task is the task it was at the beginning; a task that no longer waits has
      been handed out during the run. */
  lemma {:induction false} WaitingFollows(cfg: QueueConfig, w: World, es: seq<Event>, p: nat, i: nat)
    requires WellFormed(w.s) && p < 3 && i < |w.s.queues[p]|
    ensures var w' := Run(cfg, w, es);
            && w.dispatched <= w'.dispatched
            && match Waiting(cfg, w, es, p, i)
               case Some(j) => j < |w'.s.queues[p]| && w'.s.queues[p][j] == w.s.queues[p][i]
               case None => w.s.queues[p][i] in w'.dispatched[|w.dispatched|..]
    decreases |es|
  {
    if es != [] {
      var w1 := Step(cfg, w, es[0]);
      StepWellFormed(cfg, w, es[0]);
      MovedFollows(cfg, w, es[0], p, i);
      DispatchedGrows(cfg, w, es);
      match Moved(cfg, w.s, es[0], p, i)
      case Some(j) =>
        WaitingFollows(cfg, w1, es[1..], p, j);
      case None =>
        DispatchedGrows(cfg, w1, es[1..]);
        assert Run(cfg, w, es).dispatched[|w.dispatched|] == w.s.queues[p][i];
    }
  }

  lemma {:induction false} DispatchedGrows(cfg: QueueConfig, w: World, es: seq<Event>)
    requires WellFormed(w.s)
    ensures w.dispatched <= Run(cfg, w, es).dispatched
    decreases |es|
  {
    if es != [] {
      StepWellFormed(cfg, w, es[0]);
      assert w.dispatched <= Step(cfg, w, es[0]).dispatched;
      DispatchedGrows(cfg, Step(cfg, w, es[0]), es[1..]);
    }
  }

  /** Every hand-out from Normal or Low brings the task closer: either a task ahead of it
      goes, or the other deque uses up its turn. */
  lemma TurnUsed(cfg: QueueConfig, w: World, e: Event, p: nat, i: nat, j: nat)
    requires WellFormed(w.s) && p in {NORMAL, LOW} && i < |w.s.queues[p]|
    requires Served(cfg, w.s, e).Some? ==> ReadyAt(cfg, w.s, p, i)
    requires Moved(cfg, w.s, e, p, i) == Some(j)
    ensures var at := Served(cfg, w.s, e);
            Turns(Step(cfg, w, e).s, p, j)
              <= Turns(w.s, p, i) - if at.Some? && at.value.deque != HIGH then 1 else 0
  {
  }

  lemma {:induction false} BypassMeasure(cfg: QueueConfig, w: World, es: seq<Event>, p: nat, i: nat)
    requires WellFormed(w.s) && p in {NORMAL, LOW} && i < |w.s.queues[p]|
    requires SlotFreeAtDispatches(cfg, w, es, p, i)
    ensures match Waiting(cfg, w, es, p, i)
            case Some(j) => NonHighDispatches(cfg, w, es) + Turns(Run(cfg, w, es).s, p, j) <= Turns(w.s, p, i)
            case None => true
    decreases |es|
  {
    if es != [] {
      match Moved(cfg, w.s, es[0], p, i)
      case None =>
      case Some(j) =>
        StepWellFormed(cfg, w, es[0]);
        MovedFollows(cfg, w, es[0], p, i);
        TurnUsed(cfg, w, es[0], p, i, j);
        BypassMeasure(cfg, Step(cfg, w, es[0]), es[1..], p, j);
    }
  }

  /** Bounded bypass: a Normal or Low task with `i` tasks ahead of it is handed out within
      2i + 2 hand-outs from those two deques (one fewer when it is its deque's turn),
      whatever enqueues, completions, pauses, refusals and High tasks come between. */
  lemma BypassIsBounded(cfg: QueueConfig, w: World, es: seq<Event>, p: nat, i: nat)
    requires WellFormed(w.s) && p in {NORMAL, LOW} && i < |w.s.queues[p]|
    requires SlotFreeAtDispatches(cfg, w, es, p, i)
    requires NonHighDispatches(cfg, w, es) >= 2 * i + if w.s.rr == p then 1 else 2
    ensures Waiting(cfg, w, es, p, i) == None
    ensures w.dispatched <= Run(cfg, w, es).dispatched
    ensures w.s.queues[p][i] in Run(cfg, w, es).dispatched[|w.dispatched|..]
  {
    BypassMeasure(cfg, w, es, p, i);
    WaitingFollows(cfg, w, es, p, i);
  }

  // ---- The bound is exact, and the free slot is needed -------------------------

  function Dequeues(n: nat): seq<Event> {
    seq(n, _ => Dequeue(true))
  }

  /** Two long deques, nothing in High, and slots enough for the next `n` tasks. */
  ghost predicate Backlog(cfg: QueueConfig, s: State, p: nat, i: nat, n: nat) {
    && WellFormed(s) && p in {NORMAL, LOW} && !s.paused
    && s.queues[HIGH] == []
    && i < |s.queues[p]|
    && |s.queues[OtherDeque(p)]| >= i + (if s.rr == p then 0 else 1)
    && forall k: TaskType :: s.running[k] + n <= Limit(cfg, k)
  }

  lemma BacklogServes(cfg: QueueConfig, s: State, p: nat, i: nat, n: nat)
    requires n > 0 && Turns(s, p, i) > 0
    requires Backlog(cfg, s, p, i, n)
    ensures Served(cfg, s, Dequeue(true)) == Some(Place(s.rr, 0))
  {
  }

  lemma BacklogStep(cfg: QueueConfig, w: World, p: nat, i: nat, n: nat)
    requires n > 0 && Turns(w.s, p, i) > 0
    requires Backlog(cfg, w.s, p, i, n)
    ensures Served(cfg, w.s, Dequeue(true)) == Some(Place(w.s.rr, 0))
    ensures var j := if w.s.rr == p then i - 1 else i;
            && Moved(cfg, w.s, Dequeue(true), p, i) == Some(j)
            && Backlog(cfg, Step(cfg, w, Dequeue(true)).s, p, j, n - 1)
            && Turns(Step(cfg, w, Dequeue(true)).s, p, j) == Turns(w.s, p, i) - 1
  {
    BacklogServes(cfg, w.s, p, i, n);
    StepWellFormed(cfg, w, Dequeue(true));
  }

  /** The bound is reached: with a long backlog in both deques, the task still waits after
      every hand-out but the last one that the bound allows. */
  lemma {:induction false} BypassBoundIsTight(cfg: QueueConfig, w: World, p: nat, i: nat)
    requires Backlog(cfg, w.s, p, i, Turns(w.s, p, i))
    ensures var es := Dequeues(Turns(w.s, p, i));
            && SlotFreeAtDispatches(cfg, w, es, p, i)
            && NonHighDispatches(cfg, w, es) == Turns(w.s, p, i)
            && Waiting(cfg, w, es, p, i) == Some(0)
    decreases Turns(w.s, p, i)
  {
    var n := Turns(w.s, p, i);
    if n > 0 {
      var es := Dequeues(n);
      assert es[0] == Dequeue(true) && es[1..] == Dequeues(n - 1);
      BacklogStep(cfg, w, p, i, n);
      MovedFollows(cfg, w, es[0], p, i);
      BypassBoundIsTight(cfg, Step(cfg, w, Dequeue(true)), p, if w.s.rr == p then i - 1 else i);
    }
  }

  /** Without a free slot there is no bound at all: a task whose type is not configured, or
      configured to no slots, is never handed out, in any run. */
  lemma {:induction false} TypeWithoutSlotsNeverRuns(cfg: QueueConfig, w: World, es: seq<Event>, p: nat, i: nat)
    requires WellFormed(w.s) && p < 3 && i < |w.s.queues[p]|
    requires var kind := w.s.queues[p][i].kind; kind in cfg.maxConcurrent ==> cfg.maxConcurrent[kind] == 0
    ensures Waiting(cfg, w, es, p, i).Some?
    decreases |es|
  {
    if es != [] {
      SelectIsExact(cfg, w.s);
      StepWellFormed(cfg, w, es[0]);
      MovedFollows(cfg, w, es[0], p, i);
      var at := Served(cfg, w.s, es[0]);
      if at.Some? {
        assert ReadyAt(cfg, w.s, at.value.deque, at.value.position);
      }
      TypeWithoutSlotsNeverRuns(cfg, Step(cfg, w, es[0]), es[1..], p, Moved(cfg, w.s, es[0], p, i).value);
    }
  }
}

/** How many tasks could be handed out at once: the yardstick of the wake-up protocol. */
module Capacity {
  import opened Wrappers
  import opened Scheduler

  function CountKind(q: seq<Task>, k: TaskType): nat {
    if q == [] then 0 else One(q[0].kind == k) + CountKind(q[1..], k)
  }

  function QueuedOf(queues: seq<seq<Task>>, k: TaskType): nat
    requires |queues| == 3
  {
    CountKind(queues[HIGH], k) + CountKind(queues[NORMAL], k) + CountKind(queues[LOW], k)
  }

  /** Queued tasks of type `k` that its free slots can take. */
  function Share(cfg: QueueConfig, s: State, k: TaskType): nat
    requires |s.queues| == 3
  {
    var queued := QueuedOf(s.queues, k);
    var free := if s.running[k] < Limit(cfg, k) then Limit(cfg, k) - s.running[k] else 0;
    if queued < free then queued else free
  }

  /** Tasks that can be handed out before another event is needed. */
  function Dispatchable(cfg: QueueConfig, accepts: bool, s: State): nat
    requires |s.queues| == 3
  {
    if s.paused || !accepts then 0
    else Share(cfg, s, Watch) + Share(cfg, s, Interactive) + Share(cfg, s, Export)
  }

  lemma {:induction false} CountAppend(a: seq<Task>, b: seq<Task>, k: TaskType)
    ensures CountKind(a + b, k) == CountKind(a, k) + CountKind(b, k)
  {
    if a == [] {
      assert a + b == b;
    } else {
      assert (a + b)[1..] == a[1..] + b;
      CountAppend(a[1..], b, k);
    }
  }

  lemma CountRemove(q: seq<Task>, i: nat, k: TaskType)
    requires i < |q|
    ensures CountKind(q, k) == CountKind(RemoveAt(q, i), k) + One(q[i].kind == k)
  {
    assert q == q[..i] + ([q[i]] + q[i + 1..]);
    CountAppend(q[..i], [q[i]] + q[i + 1..], k);
    CountAppend([q[i]], q[i + 1..], k);
    CountAppend(q[..i], q[i + 1..], k);
  }

  lemma {:induction false} CountPositive(q: seq<Task>, k: TaskType)
    ensures CountKind(q, k) > 0 <==> exists i :: 0 <= i < |q| && q[i].kind == k
  {
    if q != [] {
      CountPositive(q[1..], k);
      if i :| 0 <= i < |q| && q[i].kind == k {
        if i > 0 {
          assert q[1..][i - 1].kind == k;
        }
      }
    }
  }

  lemma QueuedPositive(queues: seq<seq<Task>>, k: TaskType)
    requires |queues| == 3
    ensures QueuedOf(queues, k) > 0 <==>
            exists p, i :: 0 <= p < 3 && 0 <= i < |queues[p]| && queues[p][i].kind == k
  {
    CountPositive(queues[HIGH], k);
    CountPositive(queues[NORMAL], k);
    CountPositive(queues[LOW], k);
  }

  lemma SharePositive(cfg: QueueConfig, s: State, k: TaskType)
    requires |s.queues| == 3
    ensures Share(cfg, s, k) > 0 <==>
            exists p: nat, i: nat :: ReadyAt(cfg, s, p, i) && s.queues[p][i].kind == k
  {
    QueuedPositive(s.queues, k);
    if Share(cfg, s, k) > 0 {
      var p, i :| 0 <= p < 3 && 0 <= i < |s.queues[p]| && s.queues[p][i].kind == k;
      assert ReadyAt(cfg, s, p, i);
    }
  }

  /** Something can be handed out exactly when the wait predicate is true. */
  lemma DispatchablePositive(cfg: QueueConfig, accepts: bool, s: State)
    requires |s.queues| == 3
    ensures Dispatchable(cfg, accepts, s) > 0 <==> MayRun(cfg, accepts, s)
  {
    SharePositive(cfg, s, Watch);
    SharePositive(cfg, s, Interactive);
    SharePositive(cfg, s, Export);
    if MayRun(cfg, accepts, s) {
      var p: nat, i: nat :| ReadyAt(cfg, s, p, i);
      assert s.queues[p][i].kind in {Watch, Interactive, Export};
    }
  }

  lemma ShareAfterAppend(cfg: QueueConfig, s: State, t: Task, k: TaskType)
    requires |s.queues| == 3
    ensures Share(cfg, Append(s, t), k) <= Share(cfg, s, k) + One(t.kind == k)
  {
    CountAppend(s.queues[Index(t.priority)], [t], k);
    assert CountKind([t], k) == One(t.kind == k);
  }

  /** A new task adds at most one. */
  lemma DispatchableAfterAppend(cfg: QueueConfig, accepts: bool, s: State, t: Task)
    requires |s.queues| == 3
    ensures Dispatchable(cfg, accepts, Append(s, t)) <= Dispatchable(cfg, accepts, s) + 1
  {
    ShareAfterAppend(cfg, s, t, Watch);
    ShareAfterAppend(cfg, s, t, Interactive);
    ShareAfterAppend(cfg, s, t, Export);
  }

  lemma QueuedOfAfterTake(s: State, at: Place, k: TaskType)
    requires |s.queues| == 3 && at.deque < 3 && at.position < |s.queues[at.deque]|
    ensures QueuedOf(s.queues, k) == QueuedOf(Take(s, at).queues, k) + One(s.queues[at.deque][at.position].kind == k)
  {
    CountRemove(s.queues[at.deque], at.position, k);
  }

  lemma ShareAfterDispatch(cfg: QueueConfig, s: State, at: Place, k: TaskType)
    requires |s.queues| == 3 && at.deque < 3 && at.position < |s.queues[at.deque]|
    requires Ready(cfg, s.running, s.queues[at.deque][at.position])
    ensures var t := s.queues[at.deque][at.position];
            Share(cfg, s, k) == Share(cfg, Occupy(Take(s, at), t), k) + One(t.kind == k)
  {
    QueuedOfAfterTake(s, at, k);
  }

  /** Handing out a task uses up exactly one. */
  lemma DispatchableAfterDispatch(cfg: QueueConfig, accepts: bool, s: State, at: Place)
    requires |s.queues| == 3 && at.deque < 3 && at.position < |s.queues[at.deque]|
    requires Ready(cfg, s.running, s.queues[at.deque][at.position])
    requires !s.paused && accepts
    ensures var t := s.queues[at.deque][at.position];
            Dispatchable(cfg, accepts, s) == Dispatchable(cfg, accepts, Occupy(Take(s, at), t)) + 1
  {
    ShareAfterDispatch(cfg, s, at, Watch);
    ShareAfterDispatch(cfg, s, at, Interactive);
    ShareAfterDispatch(cfg, s, at, Export);
  }
}

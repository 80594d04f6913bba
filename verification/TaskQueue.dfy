/** `TaskQueue` as an object: the fields of daemon/src/queue.cpp updated in place, every
    method proved against the functions of `Scheduler`.  Each method is one critical
    section; waiting, waking and notifying are in WakeProtocol.dfy. */
module TaskQueueObject {
  import opened Wrappers
  import opened Scheduler
  import opened SchedulerInvariants
  import opened GpuGuardModel

  /** The verdict that `canRunUnlocked` asks for: no guard means no work. */
  predicate Verdict(guard: GpuGuard?)
    reads guard
  {
    guard != null && CanAcceptWork(guard.State())
  }

  class TaskQueue {
    const config: QueueConfig
    const guard: GpuGuard?
    const queues: array<seq<Task>>
    var running: Slots
    var inflight: map<TaskId, TaskType>
    var paused: bool
    var rrIndex: nat

    ghost var accepted: seq<Task>
    ghost var dispatched: seq<Task>
    ghost var outstanding: map<TaskId, Task>
    ghost var completed: seq<Task>
    ghost var overwritten: seq<Task>

    function Fields(): State
      reads this, queues
    {
      State(queues[..], running, inflight, paused, rrIndex)
    }

    ghost function History(): World
      reads this, queues
    {
      World(Fields(), accepted, dispatched, outstanding, completed, overwritten)
    }

    ghost predicate Valid()
      reads this, queues
    {
      queues.Length == 3 && Invariant(config, History())
    }

    constructor (guard: GpuGuard?, config: QueueConfig)
      ensures Valid() && History() == START
      ensures queues[..] == [[], [], []] && inflight == map[] && !paused && rrIndex == 1
      ensures forall k: TaskType :: running[k] == 0
      ensures this.guard == guard && this.config == config && fresh(queues)
    {
      this.config, this.guard := config, guard;
      queues := new seq<Task>[3](_ => []);
      running, inflight, paused, rrIndex := NO_TASK_RUNNING, map[], false, NORMAL;
      accepted, dispatched, outstanding, completed, overwritten := [], [], map[], [], [];
      new;
      assert queues[..] == INITIAL.queues;
      InvariantAtStart(config);
    }

    method TotalQueuedUnlocked() returns (total: nat)
      requires queues.Length == 3
      ensures total == |queues[0]| + |queues[1]| + |queues[2]|
    {
      total := 0;
      for i := 0 to queues.Length
        invariant i == 0 ==> total == 0
        invariant i == 1 ==> total == |queues[0]|
        invariant i == 2 ==> total == |queues[0]| + |queues[1]|
        invariant i == 3 ==> total == |queues[0]| + |queues[1]| + |queues[2]|
      {
        total := total + |queues[i]|;
      }
    }

    method EnqueueLocked(task: Task) returns (ok: bool)
      requires queues.Length == 3
      modifies this, queues
      ensures ok <==> |old(queues[0])| + |old(queues[1])| + |old(queues[2])| < config.maxQueueDepth
      ensures History() == if !ok then old(History()) else
                old(History()).(s := Append(old(Fields()), task), accepted := old(accepted) + [task])
    {
      var total := TotalQueuedUnlocked();
      if total >= config.maxQueueDepth {
        return false;
      }
      var idx := Index(task.priority);
      queues[idx] := queues[idx] + [task];
      accepted := accepted + [task];
      return true;
    }

    method Enqueue(task: Task) returns (ok: bool)
      requires Valid()
      modifies this, queues
      ensures Valid()
      ensures ok <==> |old(queues[0])| + |old(queues[1])| + |old(queues[2])| < config.maxQueueDepth
      ensures History() == Step(config, old(History()), Event.Enqueue(task))
    {
      InvariantKept(config, History(), Event.Enqueue(task));
      ok := EnqueueLocked(task);
    }

    method CanRunUnlocked() returns (r: bool)
      requires queues.Length == 3
      ensures r == MayRun(config, Verdict(guard), Fields())
      ensures r <==>
                && !paused
                && guard != null && guard.nvmlAvailable
                && guard.utilization < guard.utilThreshold && guard.vramFreeMb > guard.vramHeadroomMb
                && exists p: nat, i: nat :: p < 3 && i < |queues[p]|
                     && queues[p][i].kind in config.maxConcurrent
                     && running[queues[p][i].kind] < config.maxConcurrent[queues[p][i].kind]
    {
      if paused {
        return false;
      }
      if guard == null || !CanAcceptWork(guard.State()) {
        return false;
      }
      for p := 0 to queues.Length
        invariant forall q: nat, i: nat :: q < p ==> !ReadyAt(config, Fields(), q, i)
        invariant forall q: nat, i: nat :: q < p && i < |queues[q]| && queues[q][i].kind in config.maxConcurrent ==>
                    running[queues[q][i].kind] >= config.maxConcurrent[queues[q][i].kind]
      {
        for i := 0 to |queues[p]|
          invariant forall j: nat :: j < i ==> !ReadyAt(config, Fields(), p, j)
          invariant forall j: nat :: j < i && queues[p][j].kind in config.maxConcurrent ==>
                      running[queues[p][j].kind] >= config.maxConcurrent[queues[p][j].kind]
        {
          var task := queues[p][i];
          var limit := if task.kind in config.maxConcurrent then config.maxConcurrent[task.kind] else 0;
          if running[task.kind] < limit {
            assert ReadyAt(config, Fields(), p, i);
            return true;
          }
        }
      }
      return false;
    }

    /** The scan stops at the first task whose type has a free slot in the configuration, and
        erases it from its deque. */
    method FindReadyTask(p: nat) returns (r: Option<Task>)
      requires queues.Length == 3 && p < 3
      modifies queues
      ensures match FirstReady(config, running, old(queues[p]))
              case Some(i) =>
                && r == Some(old(queues[p])[i])
                && queues[..] == old(queues[..])[p := RemoveAt(old(queues[p]), i)]
              case None => r == None && queues[..] == old(queues[..])
      ensures r.Some? ==>
                exists i: nat ::
                  && i < |old(queues[p])| && r.value == old(queues[p])[i]
                  && queues[p] == old(queues[p])[..i] + old(queues[p])[i + 1..]
                  && r.value.kind in config.maxConcurrent
                  && running[r.value.kind] < config.maxConcurrent[r.value.kind]
                  && forall j: nat :: j < i && old(queues[p])[j].kind in config.maxConcurrent ==>
                       running[old(queues[p])[j].kind] >= config.maxConcurrent[old(queues[p])[j].kind]
      ensures r.None? ==> forall j: nat :: j < |old(queues[p])| && old(queues[p])[j].kind in config.maxConcurrent ==>
                running[old(queues[p])[j].kind] >= config.maxConcurrent[old(queues[p])[j].kind]
    {
      var q := queues[p];
      for i := 0 to |q|
        invariant queues[..] == old(queues[..])
        invariant forall j :: 0 <= j < i ==> !Ready(config, running, q[j])
      {
        var limit := if q[i].kind in config.maxConcurrent then config.maxConcurrent[q[i].kind] else 0;
        if running[q[i].kind] < limit {
          assert FirstReady(config, running, q) == Some(i);
          queues[p] := q[..i] + q[i + 1..];
          return Some(q[i]);
        }
      }
      return None;
    }

    method PopNextTaskUnlocked() returns (r: Option<Task>)
      requires queues.Length == 3 && WellFormed(Fields())
      modifies queues, `rrIndex
      ensures queues.Length == 3
      ensures match Select(config, old(Fields()))
              case Some(at) =>
                && at.deque < 3 && at.position < |old(queues[..])[at.deque]|
                && r == Some(old(queues[..])[at.deque][at.position])
                && Fields() == Take(old(Fields()), at)
              case None => r == None && Fields() == old(Fields())
    {
      var t := FindReadyTask(HIGH);
      if t.Some? {
        return t;
      }
      for i := 0 to 2
        invariant queues[..] == old(queues[..])
        invariant rrIndex == if i == 1 then OtherDeque(old(rrIndex)) else old(rrIndex)
        invariant i >= 1 ==> FirstReady(config, running, queues[old(rrIndex)]) == None
        invariant i == 2 ==> FirstReady(config, running, queues[OtherDeque(old(rrIndex))]) == None
      {
        var idx := rrIndex;
        rrIndex := if idx == NORMAL then LOW else NORMAL;
        t := FindReadyTask(idx);
        if t.Some? {
          return t;
        }
      }
      return None;
    }

    method Record(task: Task)
      requires queues.Length == 3
      modifies this
      ensures History() == HandOut(old(History()), task)
    {
      running := running[task.kind := running[task.kind] + 1];
      inflight := inflight[task.id := task.kind];
      dispatched := dispatched + [task];
      overwritten := if task.id in outstanding then overwritten + [outstanding[task.id]] else overwritten;
      outstanding := outstanding[task.id := task];
    }

    /** The body of `dequeue` under the lock. */
    method DequeueLocked() returns (r: Option<Task>)
      requires queues.Length == 3 && WellFormed(Fields())
      modifies this, queues
      ensures r.Some? <==> MayRun(config, old(Verdict(guard)), old(Fields()))
      ensures r.Some? ==> dispatched == old(dispatched) + [r.value]
      ensures r.Some? ==>
                && r.value.kind in config.maxConcurrent
                && old(running)[r.value.kind] < config.maxConcurrent[r.value.kind]
      ensures r.None? ==> dispatched == old(dispatched)
      ensures History() == Step(config, old(History()), Event.Dequeue(old(Verdict(guard))))
    {
      PickIsTotal(config, Verdict(guard), Fields());
      var canRun := CanRunUnlocked();
      if paused || !canRun {
        return None;
      }
      SelectIsExact(config, Fields());
      r := PopNextTaskUnlocked();
      Record(r.value);
    }

    /** One pass of the wait loop: `None` means that the caller goes (back) to sleep.  The
        task is always there when the predicate holds. */
    method Dequeue() returns (r: Option<Task>)
      requires Valid()
      modifies this, queues
      ensures Valid()
      ensures r.Some? <==> MayRun(config, old(Verdict(guard)), old(Fields()))
      ensures r.Some? ==>
                && r.value.kind in config.maxConcurrent
                && old(running)[r.value.kind] < config.maxConcurrent[r.value.kind]
      ensures dispatched == old(dispatched) + if r.Some? then [r.value] else []
      ensures History() == Step(config, old(History()), Event.Dequeue(old(Verdict(guard))))
    {
      InvariantKept(config, History(), Event.Dequeue(Verdict(guard)));
      r := DequeueLocked();
    }

    method CompleteLocked(id: TaskId)
      requires queues.Length == 3
      modifies this
      ensures History() == CompleteId(old(History()), id)
    {
      if id in inflight {
        var kind := inflight[id];
        if running[kind] > 0 {
          running := running[kind := running[kind] - 1];
        }
        inflight := inflight - {id};
      }
      completed := if id in outstanding then completed + [outstanding[id]] else completed;
      outstanding := outstanding - {id};
    }

    method TaskCompleted(id: TaskId)
      requires Valid()
      modifies this
      ensures Valid()
      ensures History() == Step(config, old(History()), Event.Complete(id))
      ensures inflight == old(inflight) - {id}
      ensures id in old(inflight) ==>
                && old(running)[old(inflight)[id]] > 0
                && running == old(running)[old(inflight)[id] := old(running)[old(inflight)[id]] - 1]
      ensures id !in old(inflight) ==> running == old(running)
    {
      if id in inflight {
        ReleaseFreesSlot(config, History(), id);
      }
      InvariantKept(config, History(), Event.Complete(id));
      CompleteLocked(id);
    }

    method SetPaused(value: bool)
      requires Valid()
      modifies `paused
      ensures Valid() && paused == value
      ensures History() == Step(config, old(History()), Event.SetPaused(value))
    {
      InvariantKept(config, History(), Event.SetPaused(value));
      paused := value;
    }
  }

  /** One tick of the guard with its signal delivered to the queue, as the connection made
      in the constructor intends: afterwards the queue is paused iff the guard is throttled. */
  method PollAndDeliver(guard: GpuGuard, queue: TaskQueue, reply: NvmlReply)
    requires queue.Valid() && queue.guard == guard
    requires queue.paused == guard.throttled
    modifies guard, queue
    ensures queue.Valid() && queue.paused == guard.throttled
    ensures guard.State() == Poll(old(guard.State()), reply).guard
    ensures queue.dispatched == old(queue.dispatched) && queue.running == old(queue.running)
  {
    var emitted := |guard.signals|;
    guard.PollGpu(reply);
    if |guard.signals| > emitted {
      queue.SetPaused(guard.signals[emitted]);
    }
  }
}

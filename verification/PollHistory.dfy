/** When the guard's verdict turns true without a signal, told from the replies of NVML alone,
    and what that means for the daemon: exactly such replies can strand a sleeping thread. */
module PollHistory {
  import opened Wrappers
  import opened Scheduler
  import opened SchedulerInvariants
  import opened GpuGuardModel
  import opened WakeProtocol
  import opened GuardedQueue

  // ---- The flag as a property of the replies -----------------------------------

  ghost predicate AllAnswered(rs: seq<NvmlReply>) {
    forall i :: 0 <= i < |rs| ==> rs[i].Sample?
  }

  /** Some sample overloaded the GPU, and none after it relaxed it. */
  ghost predicate ThrottledAfter(l: Limits, rs: seq<NvmlReply>) {
    exists k :: 0 <= k < |rs| && Overloads(l, rs[k]) && forall j :: k < j < |rs| ==> !Relaxes(l, rs[j])
  }

  function Booted(l: Limits): Guard {
    Initialize(Fresh(true, l.threshold, l.headroomMb)).guard
  }

  lemma {:induction false} ThrottledAfterSnoc(l: Limits, rs: seq<NvmlReply>, r: NvmlReply)
    ensures ThrottledAfter(l, rs + [r]) <==> Overloads(l, r) || (ThrottledAfter(l, rs) && !Relaxes(l, r))
  {
    var all := rs + [r];
    if Overloads(l, r) {
      assert Overloads(l, all[|rs|]);
    } else if ThrottledAfter(l, rs) && !Relaxes(l, r) {
      var k :| 0 <= k < |rs| && Overloads(l, rs[k]) && forall j :: k < j < |rs| ==> !Relaxes(l, rs[j]);
      assert Overloads(l, all[k]);
    }
    if ThrottledAfter(l, all) && !Overloads(l, r) {
      var k :| 0 <= k < |all| && Overloads(l, all[k]) && forall j :: k < j < |all| ==> !Relaxes(l, all[j]);
      assert !Relaxes(l, all[|rs|]);
      forall j | k < j < |rs| ensures !Relaxes(l, rs[j]) {
        assert !Relaxes(l, all[j]);
      }
      assert Overloads(l, rs[k]);
    }
  }

  /** The figures stored are those of the last sample, and the limits never change. */
  ghost predicate Remembers(l: Limits, g: Guard, rs: seq<NvmlReply>) {
    && g.nvmlAvailable && g.threshold == l.threshold && g.headroomMb == l.headroomMb
    && (g.throttled <==> ThrottledAfter(l, rs))
    && (if rs == [] then g.vramFreeMb == 0
        else var r := rs[|rs| - 1];
          r.Sample? && g.utilization == r.percent as real && g.vramFreeMb == r.freeBytes / BYTES_PER_MB)
  }

  /** After any run of answered polls, the guard is throttled iff some sample was overloaded
      and none after it was relaxed. */
  lemma {:induction false} FlagIsHistory(l: Limits, rs: seq<NvmlReply>)
    requires AllAnswered(rs)
    ensures Remembers(l, PollRun(Booted(l), rs).guard, rs)
  {
    if rs != [] {
      var before, r := rs[..|rs| - 1], rs[|rs| - 1];
      FlagIsHistory(l, before);
      assert rs == before + [r];
      ThrottledAfterSnoc(l, before, r);
    }
  }

  /** Reply `i` finds the GPU inside its limits, the guard is not throttled, and the reply
      before it, if there is one, was exactly at the threshold. */
  ghost predicate SilentAt(l: Limits, rs: seq<NvmlReply>, i: nat)
    requires i < |rs|
  {
    && AllAnswered(rs[..i]) && Suits(l, rs[i])
    && !ThrottledAfter(l, rs[..i])
    && (i > 0 ==> rs[i - 1].percent as real == l.threshold)
  }

  /** The silent rises of a guard are exactly these, over all sequences of replies. */
  lemma {:induction false} SilentRiseIsHistory(l: Limits, rs: seq<NvmlReply>, i: nat)
    requires i < |rs|
    ensures SilentRise(PollRun(Booted(l), rs[..i]).guard, rs[i]) <==> SilentAt(l, rs, i)
  {
    AvailableIffAllAnswered(Booted(l), rs[..i]);
    if AllAnswered(rs[..i]) {
      FlagIsHistory(l, rs[..i]);
      if i > 0 {
        assert rs[..i][i - 1] == rs[i - 1];
        if Overloads(l, rs[i - 1]) {
          OverloadThrottles(l, rs[..i]);
        }
      }
    }
  }

  lemma {:induction false} OverloadThrottles(l: Limits, rs: seq<NvmlReply>)
    requires rs != [] && Overloads(l, rs[|rs| - 1])
    ensures ThrottledAfter(l, rs)
  {
  }

  // ---- Every silent reply can strand a sleeper -----------------------------------

  /** A daemon between two polls that no worker has called yet. */
  function Resting(g: Guard): Daemon {
    Daemon(System(START.(s := INITIAL.(paused := g.throttled)), CanAcceptWork(g), {}, {}, 0), g, true, Idle)
  }

  /** A poll and, if it signals, the call of `setPaused` that follows; then more moves. */
  function PollThen(g: Guard, r: NvmlReply, more: seq<Move>): seq<Move> {
    [Tick(r)] + if Poll(g, r).signals == [] then more else [Deliver] + ([NotifyWaiters] + more)
  }

  function PollsThen(g: Guard, rs: seq<NvmlReply>, more: seq<Move>): seq<Move> {
    if rs == [] then more
    else
      var before := rs[..|rs| - 1];
      PollsThen(g, before, PollThen(PollRun(g, before).guard, rs[|rs| - 1], more))
  }

  /** A move that can be made, and where it leads. */
  ghost predicate Leads(cfg: QueueConfig, d: Daemon, m: Move, d': Daemon) {
    WellFormed(d.y.w.s) && MoveEnabled(cfg, d, m) && Make(cfg, d, m) == d' && WellFormed(d'.y.w.s)
  }

  lemma {:induction false} LeadsThen(cfg: QueueConfig, d: Daemon, m: Move, d': Daemon, more: seq<Move>)
    requires Leads(cfg, d, m, d') && Runs(cfg, d', more)
    ensures Runs(cfg, d, [m] + more) && Reached(cfg, d, [m] + more) == Reached(cfg, d', more)
  {
    RunCons(cfg, d, m, more);
  }

  /** While a signal is on its way, and after it was stored. */
  function Underway(before: Guard, g: Guard, poller: Poller): Daemon {
    var paused := if poller.Notifying? then g.throttled else before.throttled;
    Daemon(System(START.(s := INITIAL.(paused := paused)), CanAcceptWork(g), {}, {}, One(poller.Notifying?)),
           g, true, poller)
  }

  lemma {:induction false} PollSettles(cfg: QueueConfig, g: Guard, r: NvmlReply)
    ensures var o := Poll(g, r);
            if o.signals == [] then Leads(cfg, Resting(g), Tick(r), Resting(o.guard))
            else
              && Leads(cfg, Resting(g), Tick(r), Underway(g, o.guard, Signalling(o.guard.throttled)))
              && Leads(cfg, Underway(g, o.guard, Signalling(o.guard.throttled)), Deliver,
                       Underway(g, o.guard, Notifying))
              && Leads(cfg, Underway(g, o.guard, Notifying), NotifyWaiters, Resting(o.guard))
  {
  }

  lemma {:induction false} OnePollRuns(cfg: QueueConfig, g: Guard, r: NvmlReply, more: seq<Move>)
    requires WellFormed(Resting(Poll(g, r).guard).y.w.s) && Runs(cfg, Resting(Poll(g, r).guard), more)
    ensures WellFormed(Resting(g).y.w.s) && Runs(cfg, Resting(g), PollThen(g, r, more))
    ensures Reached(cfg, Resting(g), PollThen(g, r, more)) == Reached(cfg, Resting(Poll(g, r).guard), more)
  {
    var d, o := Resting(g), Poll(g, r);
    PollSettles(cfg, g, r);
    if o.signals == [] {
      LeadsThen(cfg, d, Tick(r), Resting(o.guard), more);
    } else {
      SignalledPollRuns(cfg, d, Tick(r), Underway(g, o.guard, Signalling(o.guard.throttled)),
                        Underway(g, o.guard, Notifying), Resting(o.guard), more);
    }
  }

  lemma {:induction false} SignalledPollRuns(cfg: QueueConfig, d: Daemon, m: Move, d1: Daemon, d2: Daemon,
                                             d3: Daemon, more: seq<Move>)
    requires Leads(cfg, d, m, d1) && Leads(cfg, d1, Deliver, d2) && Leads(cfg, d2, NotifyWaiters, d3)
    requires Runs(cfg, d3, more)
    ensures Runs(cfg, d, [m] + ([Deliver] + ([NotifyWaiters] + more)))
    ensures Reached(cfg, d, [m] + ([Deliver] + ([NotifyWaiters] + more))) == Reached(cfg, d3, more)
  {
    LeadsThen(cfg, d2, NotifyWaiters, d3, more);
    LeadsThen(cfg, d1, Deliver, d2, [NotifyWaiters] + more);
    LeadsThen(cfg, d, m, d1, [Deliver] + ([NotifyWaiters] + more));
  }

  lemma {:induction false} PollsRun(cfg: QueueConfig, g: Guard, rs: seq<NvmlReply>, more: seq<Move>)
    requires WellFormed(Resting(PollRun(g, rs).guard).y.w.s) && Runs(cfg, Resting(PollRun(g, rs).guard), more)
    ensures WellFormed(Resting(g).y.w.s) && Runs(cfg, Resting(g), PollsThen(g, rs, more))
    ensures Reached(cfg, Resting(g), PollsThen(g, rs, more)) == Reached(cfg, Resting(PollRun(g, rs).guard), more)
    decreases |rs|
  {
    if rs != [] {
      var before, r := rs[..|rs| - 1], rs[|rs| - 1];
      OnePollRuns(cfg, PollRun(g, before).guard, r, more);
      PollsRun(cfg, g, before, PollThen(PollRun(g, before).guard, r, more));
    }
  }

  /** Boot, the replies before `i`, and a submission and a `dequeue` just before reply `i`. */
  function StrandingAt(l: Limits, rs: seq<NvmlReply>, i: nat, k: TaskType): seq<Move>
    requires i < |rs|
  {
    [Boot] + PollsThen(Booted(l), rs[..i], Stranding(k, rs[i]))
  }

  /** Whatever the replies before it were, a silent reply strands a sleeping thread. */
  lemma {:induction false} SilentReplyLosesWakeup(cfg: QueueConfig, l: Limits, rs: seq<NvmlReply>, i: nat, k: TaskType)
    requires CanHoldOne(cfg, k) && i < |rs| && SilentAt(l, rs, i)
    ensures var d := StartDaemon(true, l.threshold, l.headroomMb);
            Runs(cfg, d, StrandingAt(l, rs, i, k)) && WakeupLost(cfg, Reached(cfg, d, StrandingAt(l, rs, i, k)))
  {
    var d, g := StartDaemon(true, l.threshold, l.headroomMb), Booted(l);
    SilentRiseIsHistory(l, rs, i);
    assert Make(cfg, d, Boot) == Resting(g);
    StrandingRuns(cfg, Resting(PollRun(g, rs[..i]).guard), rs[i], k);
    PollsRun(cfg, g, rs[..i], Stranding(k, rs[i]));
    RunCons(cfg, d, Boot, PollsThen(g, rs[..i], Stranding(k, rs[i])));
  }

  // ---- And no other reply can ----------------------------------------------------

  /** The replies of the polls in a run. */
  function Replies(ms: seq<Move>): seq<NvmlReply> {
    if ms == [] then []
    else (if ms[0].Tick? then [ms[0].reply] else []) + Replies(ms[1..])
  }

  lemma RepliesCons(m: Move, ms: seq<Move>)
    ensures Replies([m] + ms) == (if m.Tick? then [m.reply] else []) + Replies(ms)
  {
    assert ([m] + ms)[1..] == ms;
  }

  lemma {:induction false} RepliesOfPoll(g: Guard, r: NvmlReply, more: seq<Move>)
    ensures Replies(PollThen(g, r, more)) == [r] + Replies(more)
  {
    RepliesCons(NotifyWaiters, more);
    RepliesCons(Deliver, [NotifyWaiters] + more);
    RepliesCons(Tick(r), if Poll(g, r).signals == [] then more else [Deliver] + ([NotifyWaiters] + more));
  }

  lemma {:induction false} RepliesOfPolls(g: Guard, rs: seq<NvmlReply>, more: seq<Move>)
    ensures Replies(PollsThen(g, rs, more)) == rs + Replies(more)
    decreases |rs|
  {
    if rs != [] {
      var before, r := rs[..|rs| - 1], rs[|rs| - 1];
      var rest := PollThen(PollRun(g, before).guard, r, more);
      RepliesOfPolls(g, before, rest);
      RepliesOfPoll(PollRun(g, before).guard, r, more);
      assert rs + Replies(more) == before + ([r] + Replies(more));
    }
  }

  lemma {:induction false} RepliesOfStranding(l: Limits, rs: seq<NvmlReply>, i: nat, k: TaskType)
    requires i < |rs|
    ensures Replies(StrandingAt(l, rs, i, k)) == rs[..i + 1]
  {
    var submit, call := Worker(Submit(Task(0, k, High, ""), None)), Worker(Call(SLEEPER));
    RepliesCons(Boot, PollsThen(Booted(l), rs[..i], Stranding(k, rs[i])));
    RepliesOfPolls(Booted(l), rs[..i], Stranding(k, rs[i]));
    RepliesCons(submit, [call] + ([Tick(rs[i])] + []));
    RepliesCons(call, [Tick(rs[i])] + []);
    RepliesCons(Tick(rs[i]), []);
    assert rs[..i + 1] == rs[..i] + [rs[i]];
  }

  /** The guard of a daemon is what the replies so far have made of it. */
  ghost predicate Follows(l: Limits, d: Daemon, past: seq<NvmlReply>) {
    if d.booted then d.guard == PollRun(Booted(l), past).guard
    else past == [] && d.guard == Fresh(true, l.threshold, l.headroomMb)
  }

  lemma {:induction false} FollowsStep(cfg: QueueConfig, l: Limits, d: Daemon, m: Move, past: seq<NvmlReply>)
    requires WellFormed(d.y.w.s) && MoveEnabled(cfg, d, m) && Follows(l, d, past)
    ensures Follows(l, Make(cfg, d, m), if m.Tick? then past + [m.reply] else past)
  {
    if m.Tick? {
      assert (past + [m.reply])[..|past + [m.reply]| - 1] == past;
    }
  }

  ghost predicate NeverSilent(l: Limits, rs: seq<NvmlReply>) {
    forall i :: 0 <= i < |rs| ==> !SilentAt(l, rs, i)
  }

  /** A poll of a daemon that has followed `past`, when the reply is one of a sequence that is
      never silent. */
  lemma {:induction false} TickIsNotSilent(l: Limits, d: Daemon, past: seq<NvmlReply>, rs: seq<NvmlReply>)
    requires d.booted && Follows(l, d, past)
    requires past < rs && NeverSilent(l, rs)
    ensures !SilentRise(d.guard, rs[|past|])
  {
    assert rs[..|past|] == past;
    SilentRiseIsHistory(l, rs, |past|);
  }

  lemma {:induction false} NextReply(m: Move, ms: seq<Move>, past: seq<NvmlReply>, rs: seq<NvmlReply>)
    requires past + Replies([m] + ms) <= rs
    ensures if m.Tick? then past < rs && rs[|past|] == m.reply && past + [m.reply] + Replies(ms) <= rs
            else past + Replies(ms) <= rs
  {
    RepliesCons(m, ms);
    if m.Tick? {
      assert past + ([m.reply] + Replies(ms)) == past + [m.reply] + Replies(ms);
      assert (past + [m.reply] + Replies(ms))[|past|] == m.reply;
    } else {
      assert [] + Replies(ms) == Replies(ms);
    }
  }

  lemma {:induction false} NoSilentReplyNoSilentTick(cfg: QueueConfig, l: Limits, d: Daemon, ms: seq<Move>,
                                                     past: seq<NvmlReply>, rs: seq<NvmlReply>)
    requires WellFormed(d.y.w.s) && Runs(cfg, d, ms) && Follows(l, d, past)
    requires past + Replies(ms) <= rs && NeverSilent(l, rs)
    ensures NoSilentTick(cfg, d, ms)
    decreases |ms|
  {
    if ms != [] {
      assert ms == [ms[0]] + ms[1..];
      NextReply(ms[0], ms[1..], past, rs);
      FollowsStep(cfg, l, d, ms[0], past);
      if ms[0].Tick? {
        TickIsNotSilent(l, d, past, rs);
        NoSilentReplyNoSilentTick(cfg, l, Make(cfg, d, ms[0]), ms[1..], past + [ms[0].reply], rs);
      } else {
        NoSilentReplyNoSilentTick(cfg, l, Make(cfg, d, ms[0]), ms[1..], past, rs);
      }
    }
  }

  /** A run whose polls get these replies, or the first of them, ends with a lost wake-up. */
  ghost predicate Loses(cfg: QueueConfig, d: Daemon, ms: seq<Move>, rs: seq<NvmlReply>) {
    WellFormed(d.y.w.s) && Runs(cfg, d, ms) && Replies(ms) <= rs && WakeupLost(cfg, Reached(cfg, d, ms))
  }

  /** The wake-up theorem over reply histories: a daemon can lose a wake-up while NVML gives
      these replies iff one of them is silent: inside the limits, with no overload that was
      not relaxed since, and first of all or right after one at the threshold. */
  lemma {:induction false} WakeupsLostIffSilentReply(cfg: QueueConfig, l: Limits, rs: seq<NvmlReply>, k: TaskType)
    requires CanHoldOne(cfg, k)
    ensures (exists ms: seq<Move> :: Loses(cfg, StartDaemon(true, l.threshold, l.headroomMb), ms, rs))
            <==> (exists i :: 0 <= i < |rs| && SilentAt(l, rs, i))
  {
    var d := StartDaemon(true, l.threshold, l.headroomMb);
    if i :| 0 <= i < |rs| && SilentAt(l, rs, i) {
      SilentReplyLosesWakeup(cfg, l, rs, i, k);
      RepliesOfStranding(l, rs, i, k);
      assert Loses(cfg, d, StrandingAt(l, rs, i, k), rs);
    } else {
      forall ms: seq<Move> ensures !Loses(cfg, d, ms, rs) {
        if Loses(cfg, d, ms, rs) {
          assert [] + Replies(ms) == Replies(ms);
          NoSilentReplyNoSilentTick(cfg, l, d, ms, [], rs);
          NoWakeupLost(cfg, true, l.threshold, l.headroomMb, ms);
        }
      }
    }
  }
}

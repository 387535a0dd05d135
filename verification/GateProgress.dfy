/**
 Progress of the gate: once no new calls arrive, every pending call finishes, under every
 schedule.  A measure bounds the number of remaining steps even though a pending Register
 may still lengthen the hook lists that a pending Open or Close will walk.
 */
module GateProgress {
  import opened GateSpec
  import opened GateMachine

  /** How many callbacks a thread may still append to the hook lists. */
  function MayAppend(th: Thread): nat {
    if !th.call.Register? then 0
    else match th.pc
         case Start => 2
         case Waiting => 2
         case Entered => 2
         case RegOpen(_) => 2
         case RegOpenRun => 1
         case RegClosed(_) => 1
         case _ => 0
  }

  function TotalMayAppend(threads: seq<Thread>): nat {
    if threads == [] then 0 else MayAppend(threads[0]) + TotalMayAppend(threads[1..])
  }

  /** No hook list can become longer than this without new calls. */
  function Bound(s: State): nat {
    |s.gate.onOpen| + |s.gate.onClosed| + TotalMayAppend(s.threads)
  }

  /** The most steps a thread can still take, when no list is longer than `bound`. */
  function StepsLeft(th: Thread, bound: nat): nat {
    match th.pc
    case Start => if th.call.Register? then 10 else 2 * bound + 6
    case Waiting => if th.call.Register? then 9 else 2 * bound + 5
    case Entered => if th.call.Register? then 8 else 2 * bound + 4
    case Firing(todo, running, _) => 2 * |todo| + (if running then 4 else 3)
    case RegOpen(_) => 7
    case RegOpenRun => 6
    case RegClosed(_) => 5
    case RegClosedRun => 4
    case Leaving(_) => 2
    case Returning(_) => 1
    case Finished(_) => 0
  }

  function Rank(threads: seq<Thread>, bound: nat): nat {
    if threads == [] then 0 else StepsLeft(threads[0], bound) + Rank(threads[1..], bound)
  }

  /** Only thread `t` moved. */
  ghost predicate OnlyMoved(a: seq<Thread>, b: seq<Thread>, t: nat) {
    t < |a| == |b| && forall u | 0 <= u < |a| && u != t :: b[u] == a[u]
  }

  lemma {:induction false} TotalMoves(a: seq<Thread>, b: seq<Thread>, t: nat)
    requires OnlyMoved(a, b, t)
    ensures TotalMayAppend(b) + MayAppend(a[t]) == TotalMayAppend(a) + MayAppend(b[t])
  {
    if t == 0 {
      assert b[1..] == a[1..];
    } else {
      TotalMoves(a[1..], b[1..], t - 1);
    }
  }

  lemma {:induction false} RankMonotone(threads: seq<Thread>, low: nat, high: nat)
    requires low <= high
    ensures Rank(threads, low) <= Rank(threads, high)
  {
    if threads != [] {
      RankMonotone(threads[1..], low, high);
    }
  }

  lemma {:induction false} RankMoves(a: seq<Thread>, b: seq<Thread>, t: nat, bound: nat)
    requires OnlyMoved(a, b, t)
    ensures Rank(b, bound) + StepsLeft(a[t], bound) == Rank(a, bound) + StepsLeft(b[t], bound)
  {
    if t == 0 {
      assert b[1..] == a[1..];
    } else {
      RankMoves(a[1..], b[1..], t - 1, bound);
    }
  }

  lemma StepAppends(s: State, t: nat)
    requires Enabled(s, t)
    ensures var s' := Step(s, t);
            && OnlyMoved(s.threads, s'.threads, t)
            && |s'.gate.onOpen| + |s'.gate.onClosed| + MayAppend(s'.threads[t])
               <= |s.gate.onOpen| + |s.gate.onClosed| + MayAppend(s.threads[t])
  {
  }

  lemma StepMoves(s: State, t: nat, bound: nat)
    requires Enabled(s, t) && LockInv(s) && PcInv(s)
    requires bound >= |s.gate.onOpen| + |s.gate.onClosed|
    ensures StepsLeft(Step(s, t).threads[t], bound) < StepsLeft(s.threads[t], bound)
  {
  }

  /** Every step lowers the measure, although appends may lengthen the lists. */
  lemma StepLowersRank(s: State, t: nat)
    requires Enabled(s, t) && LockInv(s) && PcInv(s)
    ensures Rank(Step(s, t).threads, Bound(Step(s, t))) < Rank(s.threads, Bound(s))
  {
    var s' := Step(s, t);
    StepAppends(s, t);
    StepMoves(s, t, Bound(s));
    TotalMoves(s.threads, s'.threads, t);
    RankMoves(s.threads, s'.threads, t, Bound(s));
    RankMonotone(s'.threads, Bound(s'), Bound(s));
  }

  /** The gate cannot deadlock: while some call has not finished, some step is enabled. */
  lemma NoDeadlock(s: State, t: nat)
    requires LockInv(s) && PcInv(s) && t < |s.threads| && !s.threads[t].pc.Finished?
    ensures Enabled(s, t) || (s.lock.Some? && Enabled(s, s.lock.value))
  {
    var th := s.threads[t];
    assert InSection(th.pc) || th.pc.Waiting? ==> PcOk(s.gate.open, th.call, th.pc);
    if s.lock.Some? {
      var h := s.lock.value;
      assert InSection(s.threads[h].pc) && PcOk(s.gate.open, s.threads[h].call, s.threads[h].pc);
    }
  }

  /** A schedule without new calls: the threads that move, in order. */
  ghost predicate CanFollow(s: State, schedule: seq<nat>)
    decreases |schedule|
  {
    schedule != [] ==> Enabled(s, schedule[0]) && CanFollow(Step(s, schedule[0]), schedule[1..])
  }

  ghost function Follow(s: State, schedule: seq<nat>): State
    requires CanFollow(s, schedule)
    decreases |schedule|
  {
    if schedule == [] then s else Follow(Step(s, schedule[0]), schedule[1..])
  }

  lemma {:induction false} ScheduleBound(s: State, g0: Snapshot, schedule: seq<nat>)
    requires Inv(s, g0) && CanFollow(s, schedule)
    ensures |schedule| + Rank(Follow(s, schedule).threads, Bound(Follow(s, schedule))) <= Rank(s.threads, Bound(s))
    ensures Inv(Follow(s, schedule), g0) && |Follow(s, schedule).threads| == |s.threads|
    decreases |schedule|
  {
    if schedule != [] {
      var t := schedule[0];
      StepLowersRank(s, t);
      StepAppends(s, t);
      assert Next(s, Step(s, t));
      NextKeepsInv(s, Step(s, t), g0);
      ScheduleBound(Step(s, t), g0, schedule[1..]);
    }
  }

  ghost predicate AllDone(s: State) {
    s.lock.None? && forall t | 0 <= t < |s.threads| :: s.threads[t].pc.Finished?
  }

  lemma StuckIsDone(s: State)
    requires LockInv(s) && PcInv(s) && forall t :: !Enabled(s, t)
    ensures AllDone(s)
  {
    forall t | 0 <= t < |s.threads|
      ensures s.threads[t].pc.Finished?
    {
      if !s.threads[t].pc.Finished? {
        NoDeadlock(s, t);
      }
    }
  }

  /**
   From every reachable state, every schedule without new calls is finite, within the
   measure; and one that cannot be continued has finished every call and freed the mutex.
   */
  lemma AllCallsFinish(g0: Snapshot, run: seq<State>, schedule: seq<nat>)
    requires IsRun(g0, run) && CanFollow(run[|run| - 1], schedule)
    ensures var s := run[|run| - 1];
            && |schedule| <= Rank(s.threads, Bound(s))
            && ((forall t :: !Enabled(Follow(s, schedule), t)) ==> AllDone(Follow(s, schedule)))
  {
    var s := run[|run| - 1];
    RunInv(g0, run, |run| - 1);
    ScheduleBound(s, g0, schedule);
    if forall t :: !Enabled(Follow(s, schedule), t) {
      StuckIsDone(Follow(s, schedule));
    }
  }
}

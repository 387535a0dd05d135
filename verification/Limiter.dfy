/**
 The concurrent request limiter and the middleware that uses it.  Each request is a thread;
 one step is one atomic action: the increment, the comparison, the rollback, running the
 next handler, the deferred release.  Requests arrive and interleave arbitrarily.

 The counter is incremented before the limit is tested, so it also counts requests that are
 about to be turned away.
 */
module Limiter {
  const MAX_INT64: int := 0x7FFF_FFFF_FFFF_FFFF

  /** atomic.AddInt64, wrapping around. */
  function AddInt64(x: int, delta: int): int {
    (x + delta + MAX_INT64 + 1) % (2 * (MAX_INT64 + 1)) - (MAX_INT64 + 1)
  }

  datatype Pc =
    | Start
    | Counted(count: int)                         // the increment returned `count`; about to compare
    | Undoing(count: int)                         // over the limit; about to decrement
    | Rejected(count: int)                        // runs the Busy handler, or writes 503
    | Serving(tracked: bool)                      // inside next; `tracked` when done is release, not a no-op
    | Releasing(tracked: bool, panicked: bool)    // next returned or panicked; about to run the deferred done
    | Done(admitted: bool, panicked: bool)

  datatype State = State(counter: int, threads: seq<Pc>)

  // ---------------------------------------------------------------- the machine

  /** What one step of a request does to the counter, and where it leads. */
  function Move(max: int, counter: int, pc: Pc, panics: bool): (int, Pc)
    requires !pc.Done?
  {
    match pc
    case Start =>
      if max < 1 then (counter, Serving(false))
      else (AddInt64(counter, 1), Counted(AddInt64(counter, 1)))
    case Counted(count) => (counter, if count > max then Undoing(count) else Serving(true))
    case Undoing(count) => (AddInt64(counter, -1), Rejected(count))
    case Rejected(_) => (counter, Done(false, panics))
    case Serving(tracked) => (counter, Releasing(tracked, panics))
    case Releasing(tracked, panicked) =>
      (if tracked then AddInt64(counter, -1) else counter, Done(true, panicked))
  }

  function Step(max: int, s: State, t: nat, panics: bool): State
    requires t < |s.threads| && !s.threads[t].Done?
  {
    var (counter, pc) := Move(max, s.counter, s.threads[t], panics);
    State(counter, s.threads[t := pc])
  }

  /** The number of requests in flight stays within an int64, as goroutines must. */
  ghost predicate Next(max: int, s: State, s': State) {
    || (Count(max, Unfinished, s.threads) < MAX_INT64 && s' == s.(threads := s.threads + [Start]))
    || (exists t: nat, panics: bool :: t < |s.threads| && !s.threads[t].Done? && s' == Step(max, s, t, panics))
  }

  ghost predicate IsRun(max: int, run: seq<State>) {
    && run != [] && run[0] == State(0, [])
    && forall i | 0 <= i < |run| - 1 :: Next(max, run[i], run[i + 1])
  }

  // ---------------------------------------------------------------- counting requests

  datatype Class =
    | Admitted    // within the limit, from the increment to the release
    | Overflow    // over the limit and not yet rolled back
    | Handling    // inside next
    | Unfinished

  predicate Member(max: int, c: Class, pc: Pc) {
    match c
    case Admitted =>
      || (pc.Counted? && pc.count <= max)
      || (pc.Serving? && pc.tracked)
      || (pc.Releasing? && pc.tracked)
    case Overflow => (pc.Counted? && pc.count > max) || pc.Undoing?
    case Handling => pc.Serving?
    case Unfinished => !pc.Done?
  }

  function One(max: int, c: Class, pc: Pc): nat {
    if Member(max, c, pc) then 1 else 0
  }

  function Count(max: int, c: Class, threads: seq<Pc>): nat {
    if threads == [] then 0 else One(max, c, threads[0]) + Count(max, c, threads[1..])
  }

  lemma {:induction false} CountPut(max: int, c: Class, threads: seq<Pc>, t: nat, pc: Pc)
    requires t < |threads|
    ensures Count(max, c, threads[t := pc]) + One(max, c, threads[t]) == Count(max, c, threads) + One(max, c, pc)
  {
    if t > 0 {
      CountPut(max, c, threads[1..], t - 1, pc);
      assert threads[t := pc][1..] == threads[1..][t - 1 := pc];
    }
  }

  lemma {:induction false} CountAppend(max: int, c: Class, threads: seq<Pc>, pc: Pc)
    ensures Count(max, c, threads + [pc]) == Count(max, c, threads) + One(max, c, pc)
  {
    if threads != [] {
      CountAppend(max, c, threads[1..], pc);
      assert (threads + [pc])[1..] == threads[1..] + [pc];
    }
  }

  lemma {:induction false} CountZero(max: int, c: Class, threads: seq<Pc>)
    requires forall t | 0 <= t < |threads| :: !Member(max, c, threads[t])
    ensures Count(max, c, threads) == 0
  {
    if threads != [] {
      CountZero(max, c, threads[1..]);
    }
  }

  lemma {:induction false} CountAtMost(max: int, c: Class, d: Class, threads: seq<Pc>)
    requires forall t | 0 <= t < |threads| :: Member(max, c, threads[t]) ==> Member(max, d, threads[t])
    ensures Count(max, c, threads) <= Count(max, d, threads)
  {
    if threads != [] {
      CountAtMost(max, c, d, threads[1..]);
    }
  }

  lemma {:induction false} CountDisjoint(max: int, threads: seq<Pc>)
    ensures Count(max, Admitted, threads) + Count(max, Overflow, threads) <= Count(max, Unfinished, threads)
  {
    if threads != [] {
      CountDisjoint(max, threads[1..]);
    }
  }

  // ---------------------------------------------------------------- the invariant

  predicate PcOk(max: int, pc: Pc) {
    && (pc.Serving? || pc.Releasing? ==> (pc.tracked <==> max >= 1))
    && (pc.Counted? ==> max >= 1)
    && (pc.Undoing? || pc.Rejected? ==> pc.count > max >= 1)
  }

  /**
   The counter is exactly the admitted requests still running plus the rejected ones not
   yet rolled back, and no more than `max` requests are admitted.
   */
  ghost predicate Inv(max: int, s: State) {
    && s.counter == Count(max, Admitted, s.threads) + Count(max, Overflow, s.threads)
    && (max >= 1 ==> Count(max, Admitted, s.threads) <= max)
    && Count(max, Unfinished, s.threads) <= MAX_INT64
    && forall t | 0 <= t < |s.threads| :: PcOk(max, s.threads[t])
  }

  lemma AddExact(x: int, delta: int)
    requires -MAX_INT64 - 1 <= x + delta <= MAX_INT64
    ensures AddInt64(x, delta) == x + delta
  {
  }

  lemma StepKeepsInv(max: int, s: State, t: nat, panics: bool)
    requires Inv(max, s) && t < |s.threads| && !s.threads[t].Done?
    ensures Inv(max, Step(max, s, t, panics))
  {
    var s' := Step(max, s, t, panics);
    assert PcOk(max, s.threads[t]);
    CountPut(max, Admitted, s.threads, t, s'.threads[t]);
    CountPut(max, Overflow, s.threads, t, s'.threads[t]);
    CountPut(max, Unfinished, s.threads, t, s'.threads[t]);
    CountDisjoint(max, s.threads);
    CountDisjoint(max, s'.threads);
    if s.threads[t].Start? && max >= 1 {
      AddExact(s.counter, 1);
    } else if s.threads[t].Undoing? || (s.threads[t].Releasing? && s.threads[t].tracked) {
      AddExact(s.counter, -1);
    }
    forall u | 0 <= u < |s'.threads|
      ensures PcOk(max, s'.threads[u])
    {
      assert PcOk(max, s.threads[u]);
    }
  }

  lemma NextKeepsInv(max: int, s: State, s': State)
    requires Inv(max, s) && Next(max, s, s')
    ensures Inv(max, s')
  {
    if t: nat, panics: bool :| t < |s.threads| && !s.threads[t].Done? && s' == Step(max, s, t, panics) {
      StepKeepsInv(max, s, t, panics);
    } else {
      CountAppend(max, Admitted, s.threads, Start);
      CountAppend(max, Overflow, s.threads, Start);
      CountAppend(max, Unfinished, s.threads, Start);
    }
  }

  lemma {:induction false} RunInv(max: int, run: seq<State>, i: nat)
    requires IsRun(max, run) && i < |run|
    ensures Inv(max, run[i])
  {
    if i > 0 {
      RunInv(max, run, i - 1);
      NextKeepsInv(max, run[i - 1], run[i]);
    }
  }

  // ---------------------------------------------------------------- what the limiter guarantees

  /**
   In every state of every interleaving: the counter is the sum of the admitted and the
   not yet rolled back, and at most `max` requests are inside next (if `max` is positive).
   */
  lemma AtMostMaxHandled(max: int, run: seq<State>)
    requires IsRun(max, run)
    ensures var s := run[|run| - 1];
            && s.counter == Count(max, Admitted, s.threads) + Count(max, Overflow, s.threads)
            && (max >= 1 ==> Count(max, Handling, s.threads) <= Count(max, Admitted, s.threads) <= max)
  {
    var s := run[|run| - 1];
    RunInv(max, run, |run| - 1);
    if max >= 1 {
      forall t | 0 <= t < |s.threads|
        ensures Member(max, Handling, s.threads[t]) ==> Member(max, Admitted, s.threads[t])
      {
        assert PcOk(max, s.threads[t]);
      }
      CountAtMost(max, Handling, Admitted, s.threads);
    }
  }

  /** A request whose increment has just been made is bound to be turned away. */
  predicate Doomed(max: int, pc: Pc) {
    pc.Counted? && pc.count > max
  }

  /** The increment of a request returns one more than the requests counted so far. */
  lemma IncrementCounts(max: int, s: State, t: nat, panics: bool)
    requires Inv(max, s) && t < |s.threads| && s.threads[t].Start? && max >= 1
    ensures Step(max, s, t, panics).threads[t]
            == Counted(Count(max, Admitted, s.threads) + Count(max, Overflow, s.threads) + 1)
  {
    CountPut(max, Unfinished, s.threads, t, Done(false, false));
    CountPut(max, Admitted, s.threads, t, Done(false, false));
    CountPut(max, Overflow, s.threads, t, Done(false, false));
    CountDisjoint(max, s.threads[t := Done(false, false)]);
    AddExact(s.counter, 1);
  }

  /**
   Exactly when a request is turned away: the limit is positive, and at its increment the
   admitted and the not yet rolled back together had already reached the limit.  If none
   is being rolled back, that is exactly when `max` requests are admitted.
   */
  lemma RejectedIffFull(max: int, run: seq<State>, t: nat, panics: bool)
    requires IsRun(max, run) && t < |run[|run| - 1].threads| && run[|run| - 1].threads[t].Start?
    ensures var s := run[|run| - 1];
            var admitted, overflow := Count(max, Admitted, s.threads), Count(max, Overflow, s.threads);
            var doomed := Doomed(max, Step(max, s, t, panics).threads[t]);
            && (doomed <==> max >= 1 && admitted + overflow >= max)
            && (overflow == 0 ==> (doomed <==> max >= 1 && admitted == max))
  {
    RunInv(max, run, |run| - 1);
    if max >= 1 {
      IncrementCounts(max, run[|run| - 1], t, panics);
    }
  }

  /** The requests that count against the limit: admitted, or about to be rolled back. */
  function Occupied(max: int, s: State): nat {
    Count(max, Admitted, s.threads) + Count(max, Overflow, s.threads)
  }

  /** Request `t` made its increment in step `i`. */
  ghost predicate Incremented(run: seq<State>, t: nat, i: nat) {
    && i + 1 < |run| && t < |run[i].threads| && t < |run[i + 1].threads|
    && run[i].threads[t].Start? && run[i + 1].threads[t].Counted?
  }

  /** The request is rejected, or already bound to be. */
  predicate TurnedAway(pc: Pc) {
    pc.Undoing? || pc.Rejected? || (pc.Done? && !pc.admitted)
  }

  /** Where a request stands, given how many counted when it made its increment. */
  predicate Fits(max: int, pc: Pc, sum: nat) {
    if pc.Counted? then pc.count == sum + 1
    else !pc.Start? && (TurnedAway(pc) <==> sum >= max)
  }

  lemma MoveFits(max: int, counter: int, pc: Pc, panics: bool, sum: nat)
    requires max >= 1 && Fits(max, pc, sum) && !pc.Done?
    ensures Fits(max, Move(max, counter, pc, panics).1, sum)
  {
  }

  /** What the increment finds decides the fate of the request. */
  lemma {:induction false} FateDecided(max: int, run: seq<State>, t: nat, i: nat)
    requires IsRun(max, run) && max >= 1 && Incremented(run, t, i)
    ensures t < |run[|run| - 1].threads| && Fits(max, run[|run| - 1].threads[t], Occupied(max, run[i]))
    decreases |run|
  {
    var n := |run| - 1;
    assert Next(max, run[n - 1], run[n]);
    if i == n - 1 {
      RunInv(max, run, i);
      var before := run[i];
      var u: nat, panics: bool :|
        u < |before.threads| && !before.threads[u].Done? && run[n] == Step(max, before, u, panics);
      IncrementCounts(max, before, t, panics);
    } else {
      FateDecided(max, run[..n], t, i);
      var before := run[n - 1];
      if u: nat, panics: bool :|
        u < |before.threads| && !before.threads[u].Done? && run[n] == Step(max, before, u, panics) {
        if u == t {
          MoveFits(max, before.counter, before.threads[t], panics, Occupied(max, run[i]));
        }
      }
    }
  }

  /** Under a positive limit, every request past its start has made its increment. */
  lemma {:induction false} HasIncremented(max: int, run: seq<State>, t: nat) returns (i: nat)
    requires IsRun(max, run) && max >= 1 && t < |run[|run| - 1].threads| && !run[|run| - 1].threads[t].Start?
    ensures Incremented(run, t, i)
    decreases |run|
  {
    var n := |run| - 1;
    assert n > 0;
    assert Next(max, run[n - 1], run[n]);
    if t < |run[n - 1].threads| && !run[n - 1].threads[t].Start? {
      i := HasIncremented(max, run[..n], t);
    } else {
      i := n - 1;
    }
  }

  /** Without a limit nobody is turned away. */
  lemma {:induction false} NoLimit(max: int, run: seq<State>, t: nat)
    requires IsRun(max, run) && max < 1 && t < |run[|run| - 1].threads|
    ensures !TurnedAway(run[|run| - 1].threads[t]) && !run[|run| - 1].threads[t].Counted?
    decreases |run|
  {
    var n := |run| - 1;
    if n > 0 {
      assert Next(max, run[n - 1], run[n]);
      if t < |run[n - 1].threads| {
        NoLimit(max, run[..n], t);
      }
    }
  }

  /**
   In every run, a request that is past the comparison has been turned away, or is about to be, if and
   only if the limit is positive and, at its increment, the admitted and the not yet rolled back
   together had reached the limit.
   */
  lemma TurnedAwayIffFull(max: int, run: seq<State>, t: nat)
    requires IsRun(max, run) && t < |run[|run| - 1].threads|
    requires !run[|run| - 1].threads[t].Start? && !run[|run| - 1].threads[t].Counted?
    ensures TurnedAway(run[|run| - 1].threads[t])
            <==> max >= 1 && exists i: nat :: Incremented(run, t, i) && Occupied(max, run[i]) >= max
  {
    if max >= 1 {
      var i := HasIncremented(max, run, t);
      forall j: nat | Incremented(run, t, j)
        ensures Fits(max, run[|run| - 1].threads[t], Occupied(max, run[j]))
      {
        FateDecided(max, run, t, j);
      }
    } else {
      NoLimit(max, run, t);
    }
  }

  // ---------------------------------------------------------------- what becomes of a request

  /** Request `t` is inside next in state `i`. */
  ghost predicate ServingAt(run: seq<State>, t: nat, i: nat) {
    i < |run| && t < |run[i].threads| && run[i].threads[t].Serving?
  }

  /** Request `t` is turned away, with the Busy handler or a 503, in state `i`. */
  ghost predicate RejectedAt(run: seq<State>, t: nat, i: nat) {
    i < |run| && t < |run[i].threads| && run[i].threads[t].Rejected?
  }

  /** In step `i`, next returns from request `t`, or panics. */
  ghost predicate LeavesNext(run: seq<State>, t: nat, i: nat, panicked: bool) {
    && ServingAt(run, t, i) && i + 1 < |run| && t < |run[i + 1].threads|
    && run[i + 1].threads[t].Releasing? && run[i + 1].threads[t].panicked == panicked
  }

  /** Next has been left once, in that way. */
  ghost predicate LeftNextOnce(run: seq<State>, t: nat, panicked: bool) {
    && (exists i: nat :: LeavesNext(run, t, i, panicked))
    && forall i: nat, j: nat, p: bool, q: bool | LeavesNext(run, t, i, p) && LeavesNext(run, t, j, q) ::
         i == j && p == q
  }

  /** What the program counter of a request says about its past. */
  ghost predicate PastIs(run: seq<State>, t: nat, pc: Pc) {
    match pc
    case Serving(_) => (forall i: nat, p: bool :: !LeavesNext(run, t, i, p)) && forall i: nat :: !RejectedAt(run, t, i)
    case Releasing(_, p) => LeftNextOnce(run, t, p) && forall i: nat :: !RejectedAt(run, t, i)
    case Done(true, p) => LeftNextOnce(run, t, p) && forall i: nat :: !RejectedAt(run, t, i)
    case Done(false, _) => (exists i: nat :: RejectedAt(run, t, i)) && forall i: nat :: !ServingAt(run, t, i)
    case Rejected(_) => forall i: nat :: !ServingAt(run, t, i)
    case _ => forall i: nat :: !ServingAt(run, t, i) && !RejectedAt(run, t, i)
  }

  /** What was so in a run is so in a longer one, to which the new state adds at most itself. */
  lemma OneStateMore(before: seq<State>, run: seq<State>, t: nat)
    requires |run| > 1 && before == run[..|run| - 1]
    ensures forall i: nat ::
              ServingAt(run, t, i) <==> ServingAt(before, t, i) || (i == |before| && ServingAt(run, t, i))
    ensures forall i: nat ::
              RejectedAt(run, t, i) <==> RejectedAt(before, t, i) || (i == |before| && RejectedAt(run, t, i))
    ensures forall i: nat, p: bool ::
              LeavesNext(run, t, i, p) <==>
              LeavesNext(before, t, i, p) || (i == |before| - 1 && LeavesNext(run, t, i, p))
  {
  }

  /** A request that does not move leaves its past as it is. */
  lemma PastStays(run: seq<State>, t: nat)
    requires |run| > 1 && t < |run[|run| - 2].threads| && t < |run[|run| - 1].threads|
    requires run[|run| - 1].threads[t] == run[|run| - 2].threads[t]
    requires PastIs(run[..|run| - 1], t, run[|run| - 2].threads[t])
    ensures PastIs(run, t, run[|run| - 1].threads[t])
  {
    OneStateMore(run[..|run| - 1], run, t);
  }
  /** A request that moves. */
  lemma PastMoves(max: int, run: seq<State>, t: nat, panics: bool)
    requires |run| > 1 && t < |run[|run| - 2].threads| && t < |run[|run| - 1].threads|
    requires var pc := run[|run| - 2].threads[t];
             !pc.Done? && run[|run| - 1].threads[t] == Move(max, run[|run| - 2].counter, pc, panics).1
    requires PastIs(run[..|run| - 1], t, run[|run| - 2].threads[t])
    ensures PastIs(run, t, run[|run| - 1].threads[t])
  {
    var n := |run| - 1;
    OneStateMore(run[..n], run, t);
    if run[n - 1].threads[t].Serving? {
      assert LeavesNext(run, t, n - 1, panics);
    } else if run[n - 1].threads[t].Rejected? {
      assert RejectedAt(run, t, n - 1);
    }
  }

  lemma {:induction false} NotThereBefore(max: int, run: seq<State>, t: nat, i: nat)
    requires IsRun(max, run) && |run[|run| - 1].threads| <= t && i < |run|
    ensures |run[i].threads| <= t
    decreases |run|
  {
    var n := |run| - 1;
    if i < n {
      assert Next(max, run[n - 1], run[n]);
      NotThereBefore(max, run[..n], t, i);
    }
  }

  /**
   In every run, a request that is past next was inside next and left it exactly once, in the way
   recorded, and was never turned away; one that is done without being admitted was turned away and
   never inside next.
   */
  lemma {:induction false} AdmittedRunsNext(max: int, run: seq<State>, t: nat)
    requires IsRun(max, run) && t < |run[|run| - 1].threads|
    ensures PastIs(run, t, run[|run| - 1].threads[t])
    decreases |run|
  {
    hide PastIs, Move;
    var n := |run| - 1;
    assert n > 0;
    assert Next(max, run[n - 1], run[n]);
    if t < |run[n - 1].threads| {
      AdmittedRunsNext(max, run[..n], t);
      if run[n].threads[t] == run[n - 1].threads[t] {
        PastStays(run, t);
      } else {
        var u: nat, panics: bool :|
          u < |run[n - 1].threads| && !run[n - 1].threads[u].Done? && run[n] == Step(max, run[n - 1], u, panics);
        PastMoves(max, run, t, panics);
      }
    } else {
      ArrivesNew(max, run, t);
    }
  }

  lemma ArrivesNew(max: int, run: seq<State>, t: nat)
    requires IsRun(max, run) && |run| > 1 && |run[|run| - 2].threads| <= t < |run[|run| - 1].threads|
    ensures PastIs(run, t, run[|run| - 1].threads[t])
  {
    var n := |run| - 1;
    assert Next(max, run[n - 1], run[n]);
    forall i: nat | i < n
      ensures |run[i].threads| <= t
    {
      NotThereBefore(max, run[..n], t, i);
    }
  }

  ghost predicate AllDone(s: State) {
    forall t | 0 <= t < |s.threads| :: s.threads[t].Done?
  }

  /** Once every request has finished, panicking or not, the counter is back at zero. */
  lemma CounterRestored(max: int, run: seq<State>)
    requires IsRun(max, run) && AllDone(run[|run| - 1])
    ensures run[|run| - 1].counter == 0
  {
    RunInv(max, run, |run| - 1);
    CountZero(max, Admitted, run[|run| - 1].threads);
    CountZero(max, Overflow, run[|run| - 1].threads);
  }

  lemma Arrive(max: int, run: seq<State>) returns (longer: seq<State>)
    requires IsRun(max, run) && Count(max, Unfinished, run[|run| - 1].threads) < MAX_INT64
    ensures IsRun(max, longer) && longer[|longer| - 1] == run[|run| - 1].(threads := run[|run| - 1].threads + [Start])
  {
    longer := run + [run[|run| - 1].(threads := run[|run| - 1].threads + [Start])];
  }

  lemma Advance(max: int, run: seq<State>, t: nat) returns (longer: seq<State>)
    requires IsRun(max, run) && t < |run[|run| - 1].threads| && !run[|run| - 1].threads[t].Done?
    ensures IsRun(max, longer) && longer[|longer| - 1] == Step(max, run[|run| - 1], t, false)
  {
    longer := run + [Step(max, run[|run| - 1], t, false)];
  }

  /**
   The limiter may turn a request away while no request at all is admitted: with a limit of
   one, a request that is about to roll back keeps the next one out.
   */
  lemma RejectsWithAllSlotsFree() returns (run: seq<State>)
    ensures IsRun(1, run)
    ensures run[|run| - 1].threads == [Done(true, false), Undoing(2), Counted(2)]
    ensures Count(1, Admitted, run[|run| - 1].threads) == 0
  {
    run := ServingAndUndoing();
    run := Advance(1, run, 0);
    run := Advance(1, run, 0);
    assert run[|run| - 1] == State(1, [Done(true, false), Undoing(2)]);
    run := Arrive(1, run);
    run := Advance(1, run, 2);
    CountZero(1, Admitted, run[|run| - 1].threads);
  }

  lemma ServingAndUndoing() returns (run: seq<State>)
    ensures IsRun(1, run) && run[|run| - 1] == State(2, [Serving(true), Undoing(2)])
  {
    run := Arrive(1, [State(0, [])]);
    run := Advance(1, run, 0);
    run := Advance(1, run, 0);
    assert run[|run| - 1] == State(1, [Serving(true)]);
    run := Arrive(1, run);
    run := Advance(1, run, 1);
    run := Advance(1, run, 1);
  }

  // ---------------------------------------------------------------- the objects, one request at a time

  class MaxRequestLimiter {
    const maxRequests: int
    var counter: int

    ghost predicate Valid()
      reads this
    {
      0 <= counter < MAX_INT64
    }

    constructor (maxRequests: int)
      ensures Valid() && this.maxRequests == maxRequests && counter == 0
    {
      this.maxRequests := maxRequests;
      counter := 0;
    }

    method Add(delta: int) returns (value: int)
      modifies this`counter
      ensures value == counter == AddInt64(old(counter), delta)
    {
      counter := AddInt64(counter, delta);
      value := counter;
    }

    /** Check: `tracked` tells whether the returned RequestDone is release. */
    method Check() returns (ok: bool, tracked: bool)
      requires Valid()
      modifies this`counter
      ensures ok <==> maxRequests < 1 || old(counter) < maxRequests
      ensures tracked <==> ok && maxRequests >= 1
      ensures counter == old(counter) + if tracked then 1 else 0
    {
      if maxRequests < 1 {
        return true, false;
      }
      var count := Add(1);
      if count > maxRequests {
        var _ := Add(-1);
        return false, false;
      }
      return true, true;
    }

    method Release()
      modifies this`counter
      ensures counter == AddInt64(old(counter), -1)
    {
      var _ := Add(-1);
    }

    /**
     busyDecorator.ServeHTTP around a handler that leaves the limiter alone: whether next
     panics or not, the counter ends where it began, and next runs iff a slot was free.
     */
    method ServeHTTP(panics: bool) returns (served: bool, panicked: bool)
      requires Valid()
      modifies this`counter
      ensures Valid() && counter == old(counter)
      ensures served <==> maxRequests < 1 || old(counter) < maxRequests
      ensures panicked <==> served && panics
    {
      var ok, tracked := Check();
      if ok {
        served, panicked := true, panics;
        if tracked {
          Release();
        }
      } else {
        served, panicked := false, false;
      }
    }
  }
}

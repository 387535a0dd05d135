/**
 The gate under concurrency.  Every call of Open, Close, IsOpen or Register is a thread
 with a program counter; one step is one atomic action of one thread: the unlocked load,
 taking the mutex, the compare-and-swap, the start or the end of one callback, releasing
 the mutex, returning.  Any number of threads may be spawned at any time, and steps
 interleave arbitrarily.

 The state also records the order in which calls took effect (`lin`) and the history of
 invocations and returns that callers see (`hist`).
 */
module GateMachine {
  import opened Options
  import opened GateSpec

  datatype Pc =
    | Start                                                       // before the unlocked load or the nil check
    | Waiting                                                     // blocked on, or about to take, the mutex
    | Entered                            // holds the mutex; about to compare and swap, or to load
    | Firing(todo: seq<HookId>, running: bool, open: bool)        // in callbacks.on; `running` while inside a callback
    | RegOpen(isOpen: bool)                                       // Register: about to append OnOpen
    | RegOpenRun                                                  // Register: inside OnOpen
    | RegClosed(isOpen: bool)                                     // Register: about to append OnClosed
    | RegClosedRun                                                // Register: inside OnClosed
    | Leaving(result: bool)                                       // about to release the mutex
    | Returning(result: bool)
    | Finished(result: bool)

  /**
   One call.  `invoked` is the position of its invocation in the history, `base` the number
   of calls that had taken effect by then, and `pos` its own place among them.
   */
  datatype Thread = Thread(call: Call, pc: Pc, invoked: nat, base: nat, pos: Option<nat>)

  datatype Event = Invoke(tid: nat, call: Call) | Return(tid: nat, result: bool)

  datatype State = State(gate: Snapshot, lock: Option<nat>, threads: seq<Thread>, lin: seq<LinOp>, hist: seq<Event>)

  // ---------------------------------------------------------------- the machine

  function Initial(g0: Snapshot): State {
    State(g0, None, [], [], [])
  }

  function Spawn(s: State, call: Call): State {
    s.(threads := s.threads + [Thread(call, Start, |s.hist|, |s.lin|, None)],
       hist := s.hist + [Invoke(|s.threads|, call)])
  }

  function Goto(s: State, t: nat, pc: Pc): State
    requires t < |s.threads|
  {
    s.(threads := s.threads[t := s.threads[t].(pc := pc)])
  }

  /** The call of `t` takes effect now, with the given result. */
  function TakesEffect(s: State, t: nat, result: bool, pc: Pc): State
    requires t < |s.threads|
  {
    s.(lin := s.lin + [LinOp(t, s.threads[t].call, result)],
       threads := s.threads[t := s.threads[t].(pc := pc, pos := Some(|s.lin|))])
  }

  predicate Enabled(s: State, t: nat) {
    && t < |s.threads|
    && var th := s.threads[t];
       match th.pc
       case Waiting => s.lock.None?
       case Entered => !th.call.IsOpen?
       case RegOpen(_) => th.call.Register?
       case RegClosed(_) => th.call.Register?
       case Finished(_) => false
       case _ => true
  }

  function Step(s: State, t: nat): State
    requires Enabled(s, t)
  {
    var th, id := s.threads[t], FromCall(t);
    match th.pc
    case Start => StepStart(s, t)
    case Waiting => Goto(s, t, Entered).(lock := Some(t))
    case Entered => StepEntered(s, t)
    case Firing(todo, running, open) =>
      if running then Goto(s, t, Firing(todo, false, open))
      else if todo == [] then Goto(s, t, Leaving(true))
      else Goto(s, t, Firing(todo[1..], true, open)).(gate := s.gate.(log := s.gate.log + [Fired(todo[0], open)]))
    case RegOpen(isOpen) =>
      if th.call.hook.onOpen then
        var g := s.gate.(onOpen := s.gate.onOpen + [id]);
        if isOpen then Goto(s, t, RegOpenRun).(gate := g.(log := g.log + [Fired(id, true)]))
        else Goto(s, t, RegClosed(isOpen)).(gate := g)
      else Goto(s, t, RegClosed(isOpen))
    case RegOpenRun => Goto(s, t, RegClosed(true))
    case RegClosed(isOpen) =>
      if th.call.hook.onClosed then
        var g := s.gate.(onClosed := s.gate.onClosed + [id]);
        if !isOpen then Goto(s, t, RegClosedRun).(gate := g.(log := g.log + [Fired(id, false)]))
        else Goto(s, t, Leaving(false)).(gate := g)
      else Goto(s, t, Leaving(false))
    case RegClosedRun => Goto(s, t, Leaving(false))
    case Leaving(result) => Goto(s, t, Returning(result)).(lock := None)
    case Returning(result) => Goto(s, t, Finished(result)).(hist := s.hist + [Return(t, result)])
  }

  /** The unlocked early return of Open and Close, IsOpen itself, and Register of an empty hook. */
  function StepStart(s: State, t: nat): State
    requires t < |s.threads|
  {
    match s.threads[t].call
    case Open => if s.gate.open then TakesEffect(s, t, false, Returning(false)) else Goto(s, t, Waiting)
    case Close => if !s.gate.open then TakesEffect(s, t, false, Returning(false)) else Goto(s, t, Waiting)
    case IsOpen => TakesEffect(s, t, s.gate.open, Returning(s.gate.open))
    case Register(hook) =>
      if !hook.onOpen && !hook.onClosed then TakesEffect(s, t, false, Returning(false)) else Goto(s, t, Waiting)
  }

  /** The compare-and-swap of Open and Close, and the load of Register. */
  function StepEntered(s: State, t: nat): State
    requires t < |s.threads| && !s.threads[t].call.IsOpen?
  {
    match s.threads[t].call
    case Open =>
      if !s.gate.open
      then TakesEffect(s, t, true, Firing(s.gate.onOpen, false, true)).(gate := s.gate.(open := true))
      else TakesEffect(s, t, false, Leaving(false))
    case Close =>
      if s.gate.open
      then TakesEffect(s, t, true, Firing(s.gate.onClosed, false, false)).(gate := s.gate.(open := false))
      else TakesEffect(s, t, false, Leaving(false))
    case Register(_) => TakesEffect(s, t, false, RegOpen(s.gate.open))
  }

  ghost predicate Next(s: State, s': State) {
    || (exists call :: s' == Spawn(s, call))
    || (exists t :: Enabled(s, t) && s' == Step(s, t))
  }

  ghost predicate IsRun(g0: Snapshot, run: seq<State>) {
    && run != [] && run[0] == Initial(g0)
    && forall i | 0 <= i < |run| - 1 :: Next(run[i], run[i + 1])
  }

  // ---------------------------------------------------------------- the invariant

  predicate InSection(pc: Pc) {
    !(pc.Start? || pc.Waiting? || pc.Returning? || pc.Finished?)
  }

  predicate InCallback(pc: Pc) {
    (pc.Firing? && pc.running) || pc.RegOpenRun? || pc.RegClosedRun?
  }

  /** The kind of the callbacks a thread is running. */
  function Kind(pc: Pc): bool
    requires InCallback(pc)
  {
    if pc.Firing? then pc.open else pc.RegOpenRun?
  }

  predicate Effected(pc: Pc) {
    !(pc.Start? || pc.Waiting? || pc.Entered?)
  }

  function ResultOf(pc: Pc): bool
    requires Effected(pc)
  {
    match pc
    case Firing(_, _, _) => true
    case Leaving(r) => r
    case Returning(r) => r
    case Finished(r) => r
    case _ => false
  }

  /** What a program counter says about the call and, under the mutex, about the gate value. */
  predicate PcOk(open: bool, call: Call, pc: Pc) {
    match pc
    case Waiting => !call.IsOpen?
    case Entered => !call.IsOpen?
    case Firing(_, _, kind) => kind == open && call == (if kind then Open else Close)
    case RegOpen(isOpen) => call.Register? && isOpen == open
    case RegOpenRun => call.Register? && open
    case RegClosed(isOpen) => call.Register? && isOpen == open
    case RegClosedRun => call.Register? && !open
    case Leaving(_) => !call.IsOpen?
    case _ => true
  }

  ghost predicate LockInv(s: State) {
    && (s.lock.Some? ==> s.lock.value < |s.threads|)
    && forall t | 0 <= t < |s.threads| :: InSection(s.threads[t].pc) <==> s.lock == Some(t)
  }

  ghost predicate PcInv(s: State) {
    forall t | 0 <= t < |s.threads| ::
      InSection(s.threads[t].pc) || s.threads[t].pc.Waiting? ==> PcOk(s.gate.open, s.threads[t].call, s.threads[t].pc)
  }

  ghost predicate LinInv(s: State) {
    && (forall t | 0 <= t < |s.threads| :: ThreadLin(s.lin, t, s.threads[t]))
    && (forall i | 0 <= i < |s.lin| :: s.lin[i].tid < |s.threads| && s.threads[s.lin[i].tid].pos == Some(i))
  }

  predicate ThreadLin(lin: seq<LinOp>, t: nat, th: Thread) {
    && th.base <= |lin|
    && (th.pos.Some? <==> Effected(th.pc))
    && (th.pos.Some? ==>
          && th.base <= th.pos.value < |lin|
          && lin[th.pos.value] == LinOp(t, th.call, ResultOf(th.pc)))
  }

  ghost predicate HistInv(s: State) {
    && (forall t | 0 <= t < |s.threads| ::
          s.threads[t].invoked < |s.hist| && s.hist[s.threads[t].invoked] == Invoke(t, s.threads[t].call))
    && (forall i | 0 <= i < |s.hist| :: EventOk(s.threads, s.hist[i]))
    && (forall i, j | 0 <= i < j < |s.hist| :: Ordered(s.threads, s.hist[i], s.hist[j]))
  }

  predicate EventOk(threads: seq<Thread>, e: Event) {
    && e.tid < |threads|
    && (e.Invoke? ==> threads[e.tid].call == e.call)
    && (e.Return? ==> threads[e.tid].pc == Finished(e.result) && threads[e.tid].pos.Some?)
  }

  /** A call that returned before another was invoked took effect before it was invoked. */
  predicate Ordered(threads: seq<Thread>, e: Event, e': Event) {
    e.Return? && e'.Invoke? && e.tid < |threads| && e'.tid < |threads| && threads[e.tid].pos.Some? ==>
      threads[e.tid].pos.value < threads[e'.tid].base
  }

  /** The gate as it will be once the call that holds the mutex has finished its callbacks. */
  function Settled(s: State): Snapshot {
    if s.lock.None? || s.lock.value >= |s.threads| then s.gate
    else SettledPc(s.gate, FromCall(s.lock.value), s.threads[s.lock.value].call, s.threads[s.lock.value].pc)
  }

  function SettledPc(g: Snapshot, id: HookId, call: Call, pc: Pc): Snapshot {
    if pc.Firing? then g.(log := g.log + Fires(pc.todo, pc.open))
    else if pc.RegOpen? && call.Register? then RegisterClosed(RegisterOpen(g, id, call.hook), id, call.hook)
    else if (pc.RegOpenRun? || pc.RegClosed?) && call.Register? then RegisterClosed(g, id, call.hook)
    else g
  }

  ghost predicate SimInv(s: State, g0: Snapshot) {
    Legal(g0, s.lin) && Settled(s) == Replay(g0, s.lin)
  }

  /** The callbacks still to run are the tail of the list that was being walked. */
  ghost predicate TodoInv(s: State) {
    s.lock.Some? && s.lock.value < |s.threads| ==>
      var pc := s.threads[s.lock.value].pc;
      pc.Firing? ==> TailOf(pc.todo, if pc.open then s.gate.onOpen else s.gate.onClosed)
  }

  predicate TailOf(todo: seq<HookId>, list: seq<HookId>) {
    |todo| <= |list| && todo == list[|list| - |todo|..]
  }

  ghost predicate Inv(s: State, g0: Snapshot) {
    LockInv(s) && PcInv(s) && TodoInv(s) && LinInv(s) && HistInv(s) && SimInv(s, g0)
  }

  // ---------------------------------------------------------------- every step keeps the invariant

  lemma StepKeepsLock(s: State, t: nat)
    requires Enabled(s, t) && LockInv(s)
    ensures LockInv(Step(s, t))
  {
  }

  lemma StepKeepsPc(s: State, t: nat)
    requires Enabled(s, t) && LockInv(s) && PcInv(s)
    ensures PcInv(Step(s, t))
  {
  }

  /** A step that leaves the effect of every call as it was. */
  ghost predicate Quiet(s: State, s': State, t: nat) {
    && t < |s.threads| && s'.lin == s.lin
    && |s'.threads| == |s.threads|
    && s'.threads == s.threads[t := s.threads[t].(pc := s'.threads[t].pc)]
    && (Effected(s'.threads[t].pc) <==> Effected(s.threads[t].pc))
    && (Effected(s.threads[t].pc) ==> ResultOf(s'.threads[t].pc) == ResultOf(s.threads[t].pc))
  }

  /** A step at which the call of `t` takes effect. */
  ghost predicate Effective(s: State, s': State, t: nat) {
    && t < |s.threads| && |s'.threads| == |s.threads|
    && !Effected(s.threads[t].pc) && Effected(s'.threads[t].pc)
    && s'.lin == s.lin + [LinOp(t, s.threads[t].call, ResultOf(s'.threads[t].pc))]
    && s'.threads == s.threads[t := s.threads[t].(pc := s'.threads[t].pc, pos := Some(|s.lin|))]
  }

  lemma StepCases(s: State, t: nat)
    requires Enabled(s, t)
    ensures Quiet(s, Step(s, t), t) || Effective(s, Step(s, t), t)
    ensures s.threads[t].pc.Finished? == false
    ensures var pc := s.threads[t].pc;
            Step(s, t).hist == if pc.Returning? then s.hist + [Return(t, pc.result)] else s.hist
    ensures s.threads[t].pc.Returning? ==> Step(s, t).threads[t].pc == Finished(s.threads[t].pc.result)
  {
  }

  lemma StepKeepsLin(s: State, t: nat)
    requires Enabled(s, t) && LinInv(s)
    ensures LinInv(Step(s, t))
  {
    StepCases(s, t);
    LinPreserved(s, Step(s, t), t);
  }

  lemma LinPreserved(s: State, s': State, t: nat)
    requires LinInv(s) && (Quiet(s, s', t) || Effective(s, s', t))
    ensures LinInv(s')
  {
    assert ThreadLin(s.lin, t, s.threads[t]);
    forall u | 0 <= u < |s'.threads|
      ensures ThreadLin(s'.lin, u, s'.threads[u])
    {
      assert ThreadLin(s.lin, u, s.threads[u]);
    }
  }

  lemma StepKeepsHist(s: State, t: nat)
    requires Enabled(s, t) && LinInv(s) && HistInv(s)
    ensures HistInv(Step(s, t))
  {
    StepCases(s, t);
    var s' := Step(s, t);
    assert ThreadLin(s.lin, t, s.threads[t]);
    forall i | 0 <= i < |s.hist|
      ensures EventOk(s'.threads, s.hist[i])
    {
      assert EventOk(s.threads, s.hist[i]);
    }
    forall i, j | 0 <= i < j < |s.hist|
      ensures Ordered(s'.threads, s.hist[i], s.hist[j])
    {
      assert EventOk(s.threads, s.hist[i]) && EventOk(s.threads, s.hist[j]) && Ordered(s.threads, s.hist[i], s.hist[j]);
    }
  }

  lemma StepSettles(s: State, t: nat)
    requires Enabled(s, t) && LockInv(s) && PcInv(s)
    ensures var s' := Step(s, t);
            && (Quiet(s, s', t) ==> Settled(s') == Settled(s))
            && (Effective(s, s', t) ==>
                  Apply(Settled(s), t, s.threads[t].call) == (Settled(s'), ResultOf(s'.threads[t].pc)))
  {
  }

  lemma StepKeepsSim(s: State, t: nat, g0: Snapshot)
    requires Enabled(s, t) && LockInv(s) && PcInv(s) && SimInv(s, g0)
    ensures SimInv(Step(s, t), g0)
  {
    StepCases(s, t);
    StepSettles(s, t);
    if Effective(s, Step(s, t), t) {
      LegalAppend(g0, s.lin, LinOp(t, s.threads[t].call, ResultOf(Step(s, t).threads[t].pc)));
    }
  }

  lemma StepKeepsTodo(s: State, t: nat)
    requires Enabled(s, t) && LockInv(s) && PcInv(s) && TodoInv(s)
    ensures TodoInv(Step(s, t))
  {
  }

  lemma SpawnKeepsLin(s: State, call: Call)
    requires LinInv(s)
    ensures LinInv(Spawn(s, call))
  {
    forall t | 0 <= t < |s.threads|
      ensures ThreadLin(s.lin, t, Spawn(s, call).threads[t])
    {
      assert ThreadLin(s.lin, t, s.threads[t]);
    }
  }

  lemma SpawnKeepsHist(s: State, call: Call)
    requires LinInv(s) && HistInv(s)
    ensures HistInv(Spawn(s, call))
  {
    var s' := Spawn(s, call);
    forall i | 0 <= i < |s.hist|
      ensures EventOk(s'.threads, s.hist[i]) && Ordered(s'.threads, s.hist[i], Invoke(|s.threads|, call))
    {
      assert EventOk(s.threads, s.hist[i]);
      assert ThreadLin(s.lin, s.hist[i].tid, s.threads[s.hist[i].tid]);
    }
    forall i, j | 0 <= i < j < |s.hist|
      ensures Ordered(s'.threads, s.hist[i], s.hist[j])
    {
      assert EventOk(s.threads, s.hist[i]) && EventOk(s.threads, s.hist[j]) && Ordered(s.threads, s.hist[i], s.hist[j]);
    }
  }

  lemma SpawnKeepsInv(s: State, call: Call, g0: Snapshot)
    requires Inv(s, g0)
    ensures Inv(Spawn(s, call), g0)
  {
    SpawnKeepsLin(s, call);
    SpawnKeepsHist(s, call);
    assert Settled(Spawn(s, call)) == Settled(s);
  }

  lemma NextKeepsInv(s: State, s': State, g0: Snapshot)
    requires Inv(s, g0) && Next(s, s')
    ensures Inv(s', g0)
  {
    if call :| s' == Spawn(s, call) {
      SpawnKeepsInv(s, call, g0);
    } else {
      var t :| Enabled(s, t) && s' == Step(s, t);
      StepKeepsLock(s, t);
      StepKeepsPc(s, t);
      StepKeepsTodo(s, t);
      StepKeepsLin(s, t);
      StepKeepsHist(s, t);
      StepKeepsSim(s, t, g0);
    }
  }

  /** Every state of every run satisfies the invariant. */
  lemma {:induction false} RunInv(g0: Snapshot, run: seq<State>, i: nat)
    requires IsRun(g0, run) && i < |run|
    ensures Inv(run[i], g0)
  {
    if i > 0 {
      RunInv(g0, run, i - 1);
      NextKeepsInv(run[i - 1], run[i], g0);
    }
  }

  // ---------------------------------------------------------------- linearizability

  /** What an atomic boolean answers to each call, given its successive values. */
  predicate AtomicAnswer(value: bool, op: LinOp) {
    match op.call
    case Open => op.result == !value
    case Close => op.result == value
    case IsOpen => op.result == value
    case Register(_) => true
  }

  ghost predicate AtomicBoolean(initial: bool, ops: seq<LinOp>) {
    ops != [] ==>
      var n := |ops| - 1;
      var before := Epochs(initial, ops[..n]);
      AtomicBoolean(initial, ops[..n]) && AtomicAnswer(before[|before| - 1], ops[n])
  }

  /** The successive values strictly alternate, from the initial value to the present one. */
  ghost predicate AlternatesFromTo(e: seq<bool>, first: bool, last: bool) {
    e != [] && Alternating(e) && e[0] == first && e[|e| - 1] == last
  }

  ghost predicate TookEffect(ops: seq<LinOp>, tid: nat, result: bool) {
    exists i | 0 <= i < |ops| :: ops[i].tid == tid && ops[i].result == result
  }

  /**
   `ops` is a linearization of the history: each of its entries was invoked, every call that
   returned is in it, once and with the result it returned, and a call that returned before
   another was invoked comes first.
   */
  ghost predicate Linearizes(hist: seq<Event>, ops: seq<LinOp>) {
    && DistinctTids(ops)
    && (forall i | 0 <= i < |ops| :: Invoke(ops[i].tid, ops[i].call) in hist)
    && (forall i | 0 <= i < |hist| :: hist[i].Return? ==> TookEffect(ops, hist[i].tid, hist[i].result))
    && (forall i, j, p, q | 0 <= i < j < |hist| && 0 <= p < |ops| && 0 <= q < |ops| ::
          hist[i].Return? && hist[i].tid == ops[p].tid && hist[j].Invoke? && hist[j].tid == ops[q].tid ==> p < q)
  }

  lemma ReturnedTookEffect(s: State, i: nat)
    requires LinInv(s) && HistInv(s) && i < |s.hist| && s.hist[i].Return?
    ensures TookEffect(s.lin, s.hist[i].tid, s.hist[i].result)
  {
    assert EventOk(s.threads, s.hist[i]);
    assert ThreadLin(s.lin, s.hist[i].tid, s.threads[s.hist[i].tid]);
  }

  lemma RealTimeOrder(s: State, i: nat, j: nat, p: nat, q: nat)
    requires LinInv(s) && HistInv(s) && i < j < |s.hist| && p < |s.lin| && q < |s.lin|
    requires s.hist[i].Return? && s.hist[i].tid == s.lin[p].tid && s.hist[j].Invoke? && s.hist[j].tid == s.lin[q].tid
    ensures p < q
  {
    assert Ordered(s.threads, s.hist[i], s.hist[j]);
    assert ThreadLin(s.lin, s.lin[q].tid, s.threads[s.lin[q].tid]);
  }

  lemma WasInvoked(s: State, p: nat)
    requires LinInv(s) && HistInv(s) && p < |s.lin|
    ensures Invoke(s.lin[p].tid, s.lin[p].call) in s.hist
  {
    assert ThreadLin(s.lin, s.lin[p].tid, s.threads[s.lin[p].tid]);
  }

  lemma InvLinearizes(s: State)
    requires LinInv(s) && HistInv(s)
    ensures Linearizes(s.hist, s.lin)
  {
    forall p | 0 <= p < |s.lin|
      ensures Invoke(s.lin[p].tid, s.lin[p].call) in s.hist
    {
      WasInvoked(s, p);
    }
    forall i | 0 <= i < |s.hist| && s.hist[i].Return?
      ensures TookEffect(s.lin, s.hist[i].tid, s.hist[i].result)
    {
      ReturnedTookEffect(s, i);
    }
    forall i, j, p, q | 0 <= i < j < |s.hist| && 0 <= p < |s.lin| && 0 <= q < |s.lin|
      && s.hist[i].Return? && s.hist[i].tid == s.lin[p].tid && s.hist[j].Invoke? && s.hist[j].tid == s.lin[q].tid
      ensures p < q
    {
      RealTimeOrder(s, i, j, p, q);
    }
  }

  lemma {:induction false} LegalIsAtomic(initiallyClosed: bool, hooks: seq<Hook>, ops: seq<LinOp>)
    requires Legal(Init(initiallyClosed, hooks), ops) && DistinctTids(ops)
    ensures AtomicBoolean(!initiallyClosed, ops)
  {
    if ops != [] {
      var n := |ops| - 1;
      LegalIsAtomic(initiallyClosed, hooks, ops[..n]);
      ReplayShape(initiallyClosed, hooks, ops[..n]);
    }
  }

  /**
   Linearizability: the history of any run, whatever the interleaving, has a linearization
   that one atomic boolean could have answered, and whose successful opens and closes
   strictly alternate from the initial value to the present one.
   */
  lemma GateIsLinearizable(initiallyClosed: bool, hooks: seq<Hook>, run: seq<State>)
    requires IsRun(Init(initiallyClosed, hooks), run)
    ensures var s := run[|run| - 1];
            && Linearizes(s.hist, s.lin) && AtomicBoolean(!initiallyClosed, s.lin)
            && AlternatesFromTo(Epochs(!initiallyClosed, s.lin), !initiallyClosed, s.gate.open)
  {
    RunInv(Init(initiallyClosed, hooks), run, |run| - 1);
    InvAtomic(initiallyClosed, hooks, run[|run| - 1]);
  }

  lemma InvAtomic(initiallyClosed: bool, hooks: seq<Hook>, s: State)
    requires Inv(s, Init(initiallyClosed, hooks))
    ensures Linearizes(s.hist, s.lin) && AtomicBoolean(!initiallyClosed, s.lin)
    ensures AlternatesFromTo(Epochs(!initiallyClosed, s.lin), !initiallyClosed, s.gate.open)
  {
    InvLinearizes(s);
    LegalIsAtomic(initiallyClosed, hooks, s.lin);
    LegalAlternates(initiallyClosed, hooks, s.lin);
    SettledOpen(s);
  }

  lemma SettledOpen(s: State)
    ensures Settled(s).open == s.gate.open
  {
  }

  lemma LegalAlternates(initiallyClosed: bool, hooks: seq<Hook>, ops: seq<LinOp>)
    requires Legal(Init(initiallyClosed, hooks), ops) && DistinctTids(ops)
    ensures AlternatesFromTo(Epochs(!initiallyClosed, ops), !initiallyClosed,
                             Replay(Init(initiallyClosed, hooks), ops).open)
  {
    ReplayShape(initiallyClosed, hooks, ops);
    FirstEpoch(!initiallyClosed, ops);
  }

  lemma {:induction false} FirstEpoch(initial: bool, ops: seq<LinOp>)
    ensures Epochs(initial, ops)[0] == initial
  {
    if ops != [] {
      FirstEpoch(initial, ops[..|ops| - 1]);
    }
  }

  // ---------------------------------------------------------------- hooks

  /** The callback a hook is still owed by the call that holds the mutex, if any. */
  function Owed(s: State, id: HookId): seq<bool> {
    if s.lock.None? || s.lock.value >= |s.threads| then []
    else
      var th := s.threads[s.lock.value];
      if th.pc.Firing? then (if id in th.pc.todo then [th.pc.open] else [])
      else if id != FromCall(s.lock.value) || !th.call.Register? then []
      else if th.pc.RegOpen? then Heard(th.call.hook, [s.gate.open])
      else if th.pc.RegClosed? && !s.gate.open && th.call.hook.onClosed then [false]
      else []
  }

  lemma SettledEvents(s: State, id: HookId)
    requires LockInv(s) && PcInv(s) && TodoInv(s)
    requires Distinct(Settled(s).onOpen) && Distinct(Settled(s).onClosed)
    ensures Events(Settled(s).log, id) == Events(s.gate.log, id) + Owed(s, id)
  {
    if s.lock.Some? {
      var t := s.lock.value;
      var th := s.threads[t];
      assert PcOk(s.gate.open, th.call, th.pc);
      if th.pc.Firing? {
        EventsConcat(s.gate.log, Fires(th.pc.todo, th.pc.open), id);
        EventsFires(th.pc.todo, th.pc.open, id);
      } else if th.call.Register? {
        RegisterOwes(s.gate, t, th.call, th.pc, id);
      }
    }
  }

  lemma RegisterOwes(g: Snapshot, t: nat, call: Call, pc: Pc, id: HookId)
    requires call.Register? && PcOk(g.open, call, pc) && !pc.Firing?
    ensures Events(SettledPc(g, FromCall(t), call, pc).log, id) == Events(g.log, id) +
            if id != FromCall(t) then []
            else if pc.RegOpen? then Heard(call.hook, [g.open])
            else if pc.RegClosed? && !g.open && call.hook.onClosed then [false]
            else []
  {
    EventsAppend(g.log, Fired(FromCall(t), g.open), id);
    HeardAppend(call.hook, [], g.open);
    assert [] + [g.open] == [g.open];
  }

  lemma OwesAtMostOne(s: State, id: HookId)
    ensures |Owed(s, id)| <= 1
  {
    if s.lock.Some? && s.lock.value < |s.threads| && s.threads[s.lock.value].call.Register? {
      HeardAppend(s.threads[s.lock.value].call.hook, [], s.gate.open);
      assert [] + [s.gate.open] == [s.gate.open];
    }
  }

  /** A hook has received all it must hear, but for what it is owed. */
  ghost predicate HeardAllBut(initial: bool, hooks: seq<Hook>, s: State, id: HookId, owed: seq<bool>) {
    Events(s.gate.log, id) + owed == Expected(initial, hooks, s.lin, id)
  }

  /** A running callback reads the gate value it was invoked for, and runs alone. */
  ghost predicate CallbackInv(s: State, t: nat, u: nat) {
    t < |s.threads| && u < |s.threads| && InCallback(s.threads[t].pc) ==>
      Kind(s.threads[t].pc) == s.gate.open && (InCallback(s.threads[u].pc) ==> u == t)
  }

  /**
   Nothing missed, nothing repeated, in every reachable state of every interleaving: what a
   hook has received, together with at most one callback still owed by the call that holds
   the mutex, is exactly what it must hear; so it is exact whenever the mutex is free.
   */
  lemma HooksHearEverything(initiallyClosed: bool, hooks: seq<Hook>, run: seq<State>, id: HookId)
    requires IsRun(Init(initiallyClosed, hooks), run)
    ensures var s := run[|run| - 1];
            && HeardAllBut(!initiallyClosed, hooks, s, id, Owed(s, id)) && |Owed(s, id)| <= 1
            && (s.lock.None? ==> HeardAllBut(!initiallyClosed, hooks, s, id, []))
  {
    RunInv(Init(initiallyClosed, hooks), run, |run| - 1);
    InvHeard(initiallyClosed, hooks, run[|run| - 1], id);
    OwesAtMostOne(run[|run| - 1], id);
  }

  lemma InvHeard(initiallyClosed: bool, hooks: seq<Hook>, s: State, id: HookId)
    requires Inv(s, Init(initiallyClosed, hooks))
    ensures HeardAllBut(!initiallyClosed, hooks, s, id, Owed(s, id))
  {
    HookHistory(initiallyClosed, hooks, s.lin, id);
    ReplayShape(initiallyClosed, hooks, s.lin);
    SettledEvents(s, id);
  }

  /**
   In every reachable state, a hook with both callbacks has heard a strictly alternating sequence
   that starts with the gate value when it was added and lacks at most the last of the values
   since; with the mutex free it lacks none, and ends with the present value.
   */
  lemma FullHooksAlternate(initiallyClosed: bool, hooks: seq<Hook>, run: seq<State>, id: HookId)
    requires IsRun(Init(initiallyClosed, hooks), run)
    requires var reg := Registration(!initiallyClosed, hooks, run[|run| - 1].lin, id);
             reg.Some? && reg.value.hook == Hook(true, true)
    ensures var s := run[|run| - 1];
            var e := Epochs(!initiallyClosed, s.lin);
            var since := Registration(!initiallyClosed, hooks, s.lin, id).value.since;
            var heard := Events(s.gate.log, id);
            && since < |e| && Alternating(heard) && heard <= e[since..] && |e[since..]| <= |heard| + 1
            && (heard != [] ==> heard[0] == e[since])
            && (s.lock.None? ==> AlternatesFromTo(heard, e[since], s.gate.open))
  {
    hide Events, Epochs, Registration, Init, Owed, Inv, Settled, Legal, Replay;
    var s := run[|run| - 1];
    RunInv(Init(initiallyClosed, hooks), run, |run| - 1);
    InvTail(initiallyClosed, hooks, s, id);
    HooksHearEverything(initiallyClosed, hooks, run, id);
    var since := Registration(!initiallyClosed, hooks, s.lin, id).value.since;
    HeardMost(Events(s.gate.log, id), Owed(s, id), Epochs(!initiallyClosed, s.lin)[since..]);
  }

  /** What a full hook must hear in all: the values since it was added. */
  lemma InvTail(initiallyClosed: bool, hooks: seq<Hook>, s: State, id: HookId)
    requires Inv(s, Init(initiallyClosed, hooks))
    requires var reg := Registration(!initiallyClosed, hooks, s.lin, id);
             reg.Some? && reg.value.hook == Hook(true, true)
    ensures var e := Epochs(!initiallyClosed, s.lin);
            var since := Registration(!initiallyClosed, hooks, s.lin, id).value.since;
            && since < |e| && Alternating(e[since..]) && e[|e| - 1] == s.gate.open
            && Expected(!initiallyClosed, hooks, s.lin, id) == e[since..]
  {
    hide Epochs, Registration, Init;
    InvLinearizes(s);
    LegalAlternates(initiallyClosed, hooks, s.lin);
    FullHookAlternates(initiallyClosed, hooks, s.lin, id);
    AlternatingTail(Epochs(!initiallyClosed, s.lin), Registration(!initiallyClosed, hooks, s.lin, id).value.since);
    SettledOpen(s);
  }

  lemma HeardMost(heard: seq<bool>, owed: seq<bool>, tail: seq<bool>)
    requires heard + owed == tail && |owed| <= 1 && tail != [] && Alternating(tail)
    ensures Alternating(heard) && heard <= tail && |tail| <= |heard| + 1
    ensures heard != [] ==> heard[0] == tail[0]
  {
    forall i | 0 <= i < |heard| - 1
      ensures heard[i] != heard[i + 1]
    {
      assert tail[i] != tail[i + 1];
    }
  }

  /** During a callback the gate reads as the callback's kind, and no two callbacks overlap. */
  lemma CallbacksReadTheirKind(g0: Snapshot, run: seq<State>, t: nat, u: nat)
    requires IsRun(g0, run)
    ensures CallbackInv(run[|run| - 1], t, u)
  {
    RunInv(g0, run, |run| - 1);
    var s := run[|run| - 1];
    if t < |s.threads| && InCallback(s.threads[t].pc) {
      assert PcOk(s.gate.open, s.threads[t].call, s.threads[t].pc);
    }
  }
}

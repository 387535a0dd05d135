/**
 Which hook is called before which.  The log of callbacks splits into one part for each value the
 gate has had; within a part, hooks are called by increasing index in the configuration, and then in
 the order in which their Registers took effect.

 Who is called, and in which order, is said of the configuration and of the calls that took effect; the
 callback lists of the gate are only in the proofs.
 */
module GateOrder {
  import opened GateMachine
  import opened GateSpec
  import opened Sequences

  /** The `p`-th call that took effect is the Register of `tid`. */
  predicate RegisteredAt(ops: seq<LinOp>, p: nat, tid: nat) {
    p < |ops| && ops[p].tid == tid && ops[p].call.Register?
  }

  /** Hook `a` was added before hook `b`: configured by a lower index, or configured, or registered earlier. */
  ghost predicate Before(ops: seq<LinOp>, a: HookId, b: HookId) {
    match a
    case FromConfig(i) => b.FromCall? || i < b.index
    case FromCall(t) =>
      b.FromCall? && exists p: nat, q: nat :: p < q && RegisteredAt(ops, p, t) && RegisteredAt(ops, q, b.tid)
  }

  predicate Has(hook: Hook, open: bool) {
    if open then hook.onOpen else hook.onClosed
  }

  /** The `p`-th call registered the hook `id` with a callback of this kind, no later than during epoch `k`. */
  predicate AddedBy(initial: bool, ops: seq<LinOp>, id: HookId, open: bool, k: int, p: nat) {
    && id.FromCall? && RegisteredAt(ops, p, id.tid) && Has(ops[p].call.hook, open)
    && |Epochs(initial, ops[..p])| - 1 <= k
  }

  /** The hook has a callback of this kind, and was there in epoch `k`. */
  ghost predicate Present(initial: bool, hooks: seq<Hook>, ops: seq<LinOp>, id: HookId, open: bool, k: int) {
    match id
    case FromConfig(i) => i < |hooks| && Has(hooks[i], open)
    case FromCall(_) => exists p: nat :: AddedBy(initial, ops, id, open, k, p)
  }

  /** The callbacks of one epoch: of its kind, to all hooks present that have one, in order, once each. */
  ghost predicate Part(initial: bool, hooks: seq<Hook>, ops: seq<LinOp>, part: seq<Fired>, k: nat)
    requires k < |Epochs(initial, ops)|
  {
    var open := Epochs(initial, ops)[k];
    && (forall i | 0 <= i < |part| :: part[i].open == open)
    && (forall i, j | 0 <= i < j < |part| :: Before(ops, part[i].hook, part[j].hook))
    && (forall id :: Fired(id, open) in part <==> Present(initial, hooks, ops, id, open, k))
  }

  ghost predicate Parts(initial: bool, hooks: seq<Hook>, ops: seq<LinOp>, parts: seq<seq<Fired>>) {
    && |parts| == |Epochs(initial, ops)|
    && forall k: nat | k < |parts| :: Part(initial, hooks, ops, parts[k], k)
  }

  function Joined(parts: seq<seq<Fired>>): seq<Fired> {
    if parts == [] then []
    else
      var n := |parts| - 1;
      Joined(parts[..n]) + parts[n]
  }

  // ---------------------------------------------------------------- the callback lists, in order

  /** The hooks of a list are in the order in which they were added, each present with such a callback. */
  ghost predicate InOrder(ops: seq<LinOp>, list: seq<HookId>) {
    forall i, j | 0 <= i < j < |list| :: Before(ops, list[i], list[j])
  }

  ghost predicate ListHolds(initial: bool, hooks: seq<Hook>, ops: seq<LinOp>, list: seq<HookId>, open: bool) {
    forall id :: id in list <==> Present(initial, hooks, ops, id, open, |Epochs(initial, ops)| - 1)
  }

  ghost predicate Lists(initial: bool, hooks: seq<Hook>, ops: seq<LinOp>, g: Snapshot) {
    && InOrder(ops, g.onOpen) && ListHolds(initial, hooks, ops, g.onOpen, true)
    && InOrder(ops, g.onClosed) && ListHolds(initial, hooks, ops, g.onClosed, false)
  }

  lemma ConfiguredHolds(initial: bool, hooks: seq<Hook>, open: bool)
    ensures ListHolds(initial, hooks, [], Configured(hooks, open), open) && InOrder([], Configured(hooks, open))
  {
    ConfiguredInOrder(hooks, open);
    forall id
      ensures id in Configured(hooks, open) <==> Present(initial, hooks, [], id, open, 0)
    {
      ConfiguredMembers(hooks, open, id);
    }
  }

  // ---------------------------------------------------------------- one call more

  lemma BeforeMore(ops: seq<LinOp>, op: LinOp, a: HookId, b: HookId)
    requires Before(ops, a, b)
    ensures Before(ops + [op], a, b)
  {
    if a.FromCall? {
      var p: nat, q: nat :| p < q && RegisteredAt(ops, p, a.tid) && RegisteredAt(ops, q, b.tid);
      assert RegisteredAt(ops + [op], p, a.tid) && RegisteredAt(ops + [op], q, b.tid);
    }
  }

  lemma InOrderMore(ops: seq<LinOp>, op: LinOp, list: seq<HookId>)
    requires InOrder(ops, list)
    ensures InOrder(ops + [op], list)
  {
    forall i, j | 0 <= i < j < |list|
      ensures Before(ops + [op], list[i], list[j])
    {
      BeforeMore(ops, op, list[i], list[j]);
    }
  }

  lemma {:induction false} EpochsGrow(initial: bool, ops: seq<LinOp>, p: nat)
    requires p <= |ops|
    ensures |Epochs(initial, ops[..p])| <= |Epochs(initial, ops)|
    decreases |ops|
  {
    if p < |ops| {
      var n := |ops| - 1;
      EpochsGrow(initial, ops[..n], p);
      assert ops[..n][..p] == ops[..p];
    } else {
      assert ops[..p] == ops;
    }
  }

  /** Whether this call is the Register that adds the hook, with a callback of this kind. */
  predicate Adds(op: LinOp, id: HookId, open: bool) {
    op.call.Register? && id == FromCall(op.tid) && Has(op.call.hook, open)
  }

  lemma PresentMore(initial: bool, hooks: seq<Hook>, ops: seq<LinOp>, op: LinOp, id: HookId, open: bool, k: int)
    ensures Present(initial, hooks, ops + [op], id, open, k)
            <==> Present(initial, hooks, ops, id, open, k)
                 || (Adds(op, id, open) && |Epochs(initial, ops)| - 1 <= k)
  {
    var more := ops + [op];
    forall p: nat | p < |ops|
      ensures AddedBy(initial, more, id, open, k, p) <==> AddedBy(initial, ops, id, open, k, p)
    {
      assert more[..p] == ops[..p];
    }
    assert more[..|ops|] == ops;
    if id.FromCall? {
      if p: nat :| AddedBy(initial, more, id, open, k, p) {
        assert p == |ops| || AddedBy(initial, ops, id, open, k, p);
      }
      if p: nat :| AddedBy(initial, ops, id, open, k, p) {
        assert AddedBy(initial, more, id, open, k, p);
      }
      assert AddedBy(initial, more, id, open, k, |ops|)
        <==> Adds(op, id, open) && |Epochs(initial, ops)| - 1 <= k;
    }
  }

  /** All hooks there are were there by the present epoch. */
  lemma PresentNow(initial: bool, hooks: seq<Hook>, ops: seq<LinOp>, id: HookId, open: bool, k: int)
    requires k >= |Epochs(initial, ops)| - 1
    ensures Present(initial, hooks, ops, id, open, k)
            <==> Present(initial, hooks, ops, id, open, |Epochs(initial, ops)| - 1)
  {
    if id.FromCall? {
      if p: nat :| AddedBy(initial, ops, id, open, k, p) {
        EpochsGrow(initial, ops, p);
        assert AddedBy(initial, ops, id, open, |Epochs(initial, ops)| - 1, p);
      }
      var now := |Epochs(initial, ops)| - 1;
      if p: nat :| AddedBy(initial, ops, id, open, now, p) {
        assert AddedBy(initial, ops, id, open, k, p);
      }
    }
  }

  /** A part of an earlier epoch stays as it is. */
  lemma PartStays(initial: bool, hooks: seq<Hook>, ops: seq<LinOp>, op: LinOp, part: seq<Fired>, k: nat)
    requires k < |Epochs(initial, ops)| && Part(initial, hooks, ops, part, k)
    requires Adds(op, FromCall(op.tid), Epochs(initial, ops)[k]) ==> k < |Epochs(initial, ops)| - 1
    ensures k < |Epochs(initial, ops + [op])| && Epochs(initial, ops + [op])[k] == Epochs(initial, ops)[k]
    ensures Part(initial, hooks, ops + [op], part, k)
  {
    hide Before, Present;
    OneMore(initial, hooks, ops, op, FromCall(op.tid));
    var open := Epochs(initial, ops)[k];
    forall i, j | 0 <= i < j < |part|
      ensures Before(ops + [op], part[i].hook, part[j].hook)
    {
      BeforeMore(ops, op, part[i].hook, part[j].hook);
    }
    forall id
      ensures Fired(id, open) in part <==> Present(initial, hooks, ops + [op], id, open, k)
    {
      PresentMore(initial, hooks, ops, op, id, open, k);
    }
  }

  /** The part of the present epoch grows by the hook that is registered. */
  lemma PartGrows(initial: bool, hooks: seq<Hook>, ops: seq<LinOp>, op: LinOp, part: seq<Fired>, k: nat)
    requires k == |Epochs(initial, ops)| - 1 && Part(initial, hooks, ops, part, k)
    requires Adds(op, FromCall(op.tid), Epochs(initial, ops)[k])
    ensures Epochs(initial, ops + [op]) == Epochs(initial, ops)
    ensures Part(initial, hooks, ops + [op], part + [Fired(FromCall(op.tid), Epochs(initial, ops)[k])], k)
  {
    hide Present;
    var me, open, more := FromCall(op.tid), Epochs(initial, ops)[k], ops + [op];
    var longer := part + [Fired(me, open)];
    OneMore(initial, hooks, ops, op, me);
    forall i, j | 0 <= i < j < |longer|
      ensures Before(more, longer[i].hook, longer[j].hook)
    {
      if j < |part| {
        BeforeMore(ops, op, part[i].hook, part[j].hook);
      } else {
        assert part[i] == Fired(part[i].hook, open);
        BeforeNew(initial, hooks, ops, op, part[i].hook, open, k);
      }
    }
    forall id
      ensures Fired(id, open) in longer <==> Present(initial, hooks, more, id, open, k)
    {
      PresentMore(initial, hooks, ops, op, id, open, k);
    }
  }

  /** Whatever is there comes before what is registered now. */
  lemma BeforeNew(initial: bool, hooks: seq<Hook>, ops: seq<LinOp>, op: LinOp, id: HookId, open: bool, k: int)
    requires op.call.Register? && Present(initial, hooks, ops, id, open, k)
    ensures Before(ops + [op], id, FromCall(op.tid))
  {
    if id.FromCall? {
      var p: nat :| AddedBy(initial, ops, id, open, k, p);
      assert RegisteredAt(ops + [op], p, id.tid) && RegisteredAt(ops + [op], |ops|, op.tid);
    }
  }

  /** A list after a Register, or any other call. */
  lemma ListMore(initial: bool, hooks: seq<Hook>, ops: seq<LinOp>, op: LinOp, list: seq<HookId>, open: bool)
    requires InOrder(ops, list) && ListHolds(initial, hooks, ops, list, open)
    ensures var list' := if Adds(op, FromCall(op.tid), open) then list + [FromCall(op.tid)] else list;
            InOrder(ops + [op], list') && ListHolds(initial, hooks, ops + [op], list', open)
  {
    hide Before, Present;
    var me, more, k := FromCall(op.tid), ops + [op], |Epochs(initial, ops)| - 1;
    var list' := if Adds(op, me, open) then list + [me] else list;
    OneMore(initial, hooks, ops, op, me);
    InOrderMore(ops, op, list);
    if Adds(op, me, open) {
      forall i | 0 <= i < |list|
        ensures Before(more, list[i], me)
      {
        assert list[i] in list;
        BeforeNew(initial, hooks, ops, op, list[i], open, k);
      }
    }
    forall id
      ensures id in list' <==> Present(initial, hooks, more, id, open, |Epochs(initial, more)| - 1)
    {
      PresentMore(initial, hooks, ops, op, id, open, |Epochs(initial, more)| - 1);
      PresentNow(initial, hooks, ops, id, open, |Epochs(initial, more)| - 1);
    }
  }

  // ---------------------------------------------------------------- over a sequence of calls

  /** The log of the sequential gate splits into the parts, and its lists are in order. */
  ghost predicate Ordered(initial: bool, hooks: seq<Hook>, ops: seq<LinOp>, g: Snapshot, parts: seq<seq<Fired>>) {
    && Parts(initial, hooks, ops, parts) && Joined(parts) == g.log && Lists(initial, hooks, ops, g)
    && g.open == Epochs(initial, ops)[|Epochs(initial, ops)| - 1]
  }

  lemma JoinedMore(parts: seq<seq<Fired>>, part: seq<Fired>)
    ensures Joined(parts + [part]) == Joined(parts) + part
  {
    assert (parts + [part])[..|parts|] == parts;
  }

  lemma JoinedLast(parts: seq<seq<Fired>>, more: seq<Fired>)
    requires parts != []
    ensures var n := |parts| - 1; Joined(parts[n := parts[n] + more]) == Joined(parts) + more
  {
    var n := |parts| - 1;
    assert parts[n := parts[n] + more][..n] == parts[..n];
    Associative(Joined(parts[..n]), parts[n], more);
  }

  /** A call that is neither a Register nor changes the value adds nothing. */
  lemma NothingFired(initial: bool, hooks: seq<Hook>, ops: seq<LinOp>, op: LinOp, g: Snapshot, parts: seq<seq<Fired>>)
    requires Ordered(initial, hooks, ops, g, parts) && op.result == Apply(g, op.tid, op.call).1
    requires op.call.IsOpen? || ((op.call.Open? || op.call.Close?) && !op.result)
    ensures Ordered(initial, hooks, ops + [op], Apply(g, op.tid, op.call).0, parts)
  {
    hide Part, InOrder, ListHolds, Joined;
    OneMore(initial, hooks, ops, op, FromCall(op.tid));
    ListMore(initial, hooks, ops, op, g.onOpen, true);
    ListMore(initial, hooks, ops, op, g.onClosed, false);
    forall k: nat | k < |parts|
      ensures Part(initial, hooks, ops + [op], parts[k], k)
    {
      PartStays(initial, hooks, ops, op, parts[k], k);
    }
  }

  lemma PartFires(initial: bool, hooks: seq<Hook>, ops: seq<LinOp>, list: seq<HookId>, open: bool)
    requires var e := Epochs(initial, ops); e[|e| - 1] == open
    requires InOrder(ops, list) && ListHolds(initial, hooks, ops, list, open)
    ensures Part(initial, hooks, ops, Fires(list, open), |Epochs(initial, ops)| - 1)
  {
    hide Before, Present;
    var k := |Epochs(initial, ops)| - 1;
    forall id
      ensures Fired(id, open) in Fires(list, open) <==> Present(initial, hooks, ops, id, open, k)
    {
      if id in list {
        var i :| 0 <= i < |list| && list[i] == id;
        assert Fires(list, open)[i] == Fired(id, open);
      }
    }
  }

  /** A call that changes the value fires a new part. */
  lemma AllFired(initial: bool, hooks: seq<Hook>, ops: seq<LinOp>, op: LinOp, g: Snapshot, parts: seq<seq<Fired>>)
    requires Ordered(initial, hooks, ops, g, parts) && op.result == Apply(g, op.tid, op.call).1
    requires (op.call.Open? || op.call.Close?) && op.result
    ensures var list := if op.call.Open? then g.onOpen else g.onClosed;
            Ordered(initial, hooks, ops + [op], Apply(g, op.tid, op.call).0, parts + [Fires(list, op.call.Open?)])
  {
    hide Part, InOrder, ListHolds, Joined;
    var list, open := if op.call.Open? then g.onOpen else g.onClosed, op.call.Open?;
    OneMore(initial, hooks, ops, op, FromCall(op.tid));
    ListMore(initial, hooks, ops, op, g.onOpen, true);
    ListMore(initial, hooks, ops, op, g.onClosed, false);
    forall k: nat | k < |parts|
      ensures Part(initial, hooks, ops + [op], parts[k], k)
    {
      PartStays(initial, hooks, ops, op, parts[k], k);
    }
    PartFires(initial, hooks, ops + [op], list, open);
    JoinedMore(parts, Fires(list, open));
  }

  /** A Register calls at most its own hook, in the present part. */
  lemma OwnFired(initial: bool, hooks: seq<Hook>, ops: seq<LinOp>, op: LinOp, g: Snapshot, parts: seq<seq<Fired>>)
    requires Ordered(initial, hooks, ops, g, parts) && op.call.Register?
    ensures var me, n := FromCall(op.tid), |parts| - 1;
            var own := if Adds(op, me, g.open) then [Fired(me, g.open)] else [];
            Ordered(initial, hooks, ops + [op], Apply(g, op.tid, op.call).0, parts[n := parts[n] + own])
  {
    hide Part, InOrder, ListHolds, Joined;
    var me, n := FromCall(op.tid), |parts| - 1;
    var own := if Adds(op, me, g.open) then [Fired(me, g.open)] else [];
    OneMore(initial, hooks, ops, op, me);
    ListMore(initial, hooks, ops, op, g.onOpen, true);
    ListMore(initial, hooks, ops, op, g.onClosed, false);
    var longer := parts[n := parts[n] + own];
    forall k: nat | k < |parts|
      ensures Part(initial, hooks, ops + [op], longer[k], k)
    {
      if k == n && own != [] {
        PartGrows(initial, hooks, ops, op, parts[k], k);
      } else {
        assert k == n ==> parts[k] + own == parts[k];
        PartStays(initial, hooks, ops, op, parts[k], k);
      }
    }
    JoinedLast(parts, own);
  }

  /** The callbacks of New: the configured ones of the initial kind, in order. */
  lemma StartOrdered(initiallyClosed: bool, hooks: seq<Hook>)
    ensures var g := Init(initiallyClosed, hooks); Ordered(!initiallyClosed, hooks, [], g, [g.log])
  {
    hide InOrder, ListHolds, Part;
    var g := Init(initiallyClosed, hooks);
    ConfiguredHolds(!initiallyClosed, hooks, true);
    ConfiguredHolds(!initiallyClosed, hooks, false);
    PartFires(!initiallyClosed, hooks, [], Configured(hooks, !initiallyClosed), !initiallyClosed);
    JoinedMore([], g.log);
    assert [] + [g.log] == [g.log];
  }

  /** After any legal sequence of calls, the log splits into the parts of the epochs. */
  lemma {:induction false} CallsInOrder(initiallyClosed: bool, hooks: seq<Hook>, ops: seq<LinOp>)
    returns (parts: seq<seq<Fired>>)
    requires Legal(Init(initiallyClosed, hooks), ops)
    ensures Ordered(!initiallyClosed, hooks, ops, Replay(Init(initiallyClosed, hooks), ops), parts)
  {
    hide Part, Lists, Init;
    if ops == [] {
      StartOrdered(initiallyClosed, hooks);
      parts := [Init(initiallyClosed, hooks).log];
    } else {
      var n := |ops| - 1;
      var op, g := ops[n], Replay(Init(initiallyClosed, hooks), ops[..n]);
      parts := CallsInOrder(initiallyClosed, hooks, ops[..n]);
      assert ops == ops[..n] + [op];
      if op.call.Register? {
        OwnFired(!initiallyClosed, hooks, ops[..n], op, g, parts);
        var me := FromCall(op.tid);
        var own := if Adds(op, me, g.open) then [Fired(me, g.open)] else [];
        parts := parts[|parts| - 1 := parts[|parts| - 1] + own];
      } else if op.result && !op.call.IsOpen? {
        AllFired(!initiallyClosed, hooks, ops[..n], op, g, parts);
        parts := parts + [Fires(if op.call.Open? then g.onOpen else g.onClosed, op.call.Open?)];
      } else {
        NothingFired(!initiallyClosed, hooks, ops[..n], op, g, parts);
      }
    }
  }

  // ---------------------------------------------------------------- in every reachable state

  /** The hooks that the holder of the mutex is still to call. */
  function Remaining(s: State): seq<HookId> {
    if s.lock.None? || s.lock.value >= |s.threads| then []
    else
      var me, th := FromCall(s.lock.value), s.threads[s.lock.value];
      if th.pc.Firing? then th.pc.todo
      else if !th.call.Register? then []
      else if th.pc.RegOpen? then (if Has(th.call.hook, s.gate.open) then [me] else [])
      else if th.pc.RegClosed? && !s.gate.open && th.call.hook.onClosed then [me]
      else []
  }

  function ListOf(g: Snapshot): seq<HookId> {
    if g.open then g.onOpen else g.onClosed
  }

  lemma SettledFires(s: State)
    requires LockInv(s) && PcInv(s) && TodoInv(s)
    ensures Settled(s).log == s.gate.log + Fires(Remaining(s), s.gate.open) && Settled(s).open == s.gate.open
    ensures TailOf(Remaining(s), ListOf(Settled(s)))
  {
    if s.lock.Some? {
      var th := s.threads[s.lock.value];
      assert PcOk(s.gate.open, th.call, th.pc);
    }
  }

  /** So many different hooks cannot be in a shorter part. */
  lemma {:induction false} NoMoreThan(list: seq<HookId>, open: bool, part: seq<Fired>)
    requires Distinct(list) && forall i | 0 <= i < |list| :: Fired(list[i], open) in part
    ensures |list| <= |part|
    decreases |list|
  {
    if list != [] {
      var n := |list| - 1;
      var i :| 0 <= i < |part| && part[i] == Fired(list[n], open);
      var others := part[..i] + part[i + 1..];
      forall j | 0 <= j < n
        ensures Fired(list[j], open) in others
      {
        var l :| 0 <= l < |part| && part[l] == Fired(list[j], open);
        assert l != i;
        assert others[if l < i then l else l - 1] == part[l];
      }
      NoMoreThan(list[..n], open, others);
    }
  }

  /** All but the last part has been called, and of that a beginning. */
  ghost predicate UpToLast(log: seq<Fired>, parts: seq<seq<Fired>>) {
    parts != [] && Joined(parts[..|parts| - 1]) <= log <= Joined(parts)
  }

  lemma PrefixLeaves(log: seq<Fired>, missing: seq<Fired>, before: seq<Fired>, last: seq<Fired>)
    requires log + missing == before + last && |missing| <= |last|
    ensures before <= log <= before + last
  {
    assert log == (log + missing)[..|log|];
  }

  /** The last part has room for the hooks of a tail of the list. */
  lemma LastHolds(initial: bool, hooks: seq<Hook>, ops: seq<LinOp>, g: Snapshot, parts: seq<seq<Fired>>,
                  todo: seq<HookId>)
    requires Ordered(initial, hooks, ops, g, parts) && Distinct(ListOf(g)) && TailOf(todo, ListOf(g))
    ensures |todo| <= |parts[|parts| - 1]|
  {
    hide Before, Present, Joined;
    forall i | 0 <= i < |todo|
      ensures Fired(todo[i], g.open) in parts[|parts| - 1]
    {
      assert todo[i] in ListOf(g);
    }
    NoMoreThan(todo, g.open, parts[|parts| - 1]);
  }

  /**
   In every reachable state, the log is the parts of the epochs so far, one after the other, but for an
   end of the last one while the mutex is held: every Open and Close that changed the value, and New,
   called the hooks that were there, configured ones by increasing index and then registered ones in the
   order of their Registers, and each Register made during an epoch comes after those.
   */
  lemma CallbacksInOrder(initiallyClosed: bool, hooks: seq<Hook>, run: seq<State>) returns (parts: seq<seq<Fired>>)
    requires IsRun(Init(initiallyClosed, hooks), run)
    ensures var s := run[|run| - 1];
            && Parts(!initiallyClosed, hooks, s.lin, parts) && UpToLast(s.gate.log, parts)
            && (s.lock.None? ==> s.gate.log == Joined(parts))
  {
    hide Part, Init, Settled, Events;
    var s := run[|run| - 1];
    RunInv(Init(initiallyClosed, hooks), run, |run| - 1);
    parts := CallsInOrder(initiallyClosed, hooks, s.lin);
    var n := |parts| - 1;
    InvLinearizes(s);
    ReplayShape(initiallyClosed, hooks, s.lin);
    SettledFires(s);
    LastHolds(!initiallyClosed, hooks, s.lin, Settled(s), parts, Remaining(s));
    PrefixLeaves(s.gate.log, Fires(Remaining(s), s.gate.open), Joined(parts[..n]), parts[n]);
  }
}

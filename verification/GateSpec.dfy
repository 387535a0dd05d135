/**
 The gate as a sequential object: what Open, Close, IsOpen and Register do when
 nothing else runs.  The interleaved machine (GateMachine) is shown to be
 linearizable to this object, and the class (GateObject) to implement it.

 A gate value is the flag IsOpen reports.  A hook is named by where it came from:
 its position in Config.Hooks, or the call of Register that added it.
 */
module GateSpec {
  import opened Options

  datatype HookId = FromConfig(index: nat) | FromCall(tid: nat)

  /** A Hook, reduced to which of its two callbacks are non-nil. */
  datatype Hook = Hook(onOpen: bool, onClosed: bool)

  datatype Call = Open | Close | IsOpen | Register(hook: Hook)

  /** One invocation of a callback: OnOpen when `open`, OnClosed otherwise. */
  datatype Fired = Fired(hook: HookId, open: bool)

  /** Everything a gate holds, and the log of every callback invoked so far. */
  datatype Snapshot = Snapshot(open: bool, onOpen: seq<HookId>, onClosed: seq<HookId>, log: seq<Fired>)

  /** A completed call in the order in which calls take effect. */
  datatype LinOp = LinOp(tid: nat, call: Call, result: bool)

  // ---------------------------------------------------------------- operations

  function Fires(list: seq<HookId>, open: bool): seq<Fired> {
    seq(|list|, i requires 0 <= i < |list| => Fired(list[i], open))
  }

  function RegisterOpen(g: Snapshot, id: HookId, hook: Hook): Snapshot {
    if hook.onOpen then
      g.(onOpen := g.onOpen + [id], log := if g.open then g.log + [Fired(id, true)] else g.log)
    else g
  }

  function RegisterClosed(g: Snapshot, id: HookId, hook: Hook): Snapshot {
    if hook.onClosed then
      g.(onClosed := g.onClosed + [id], log := if g.open then g.log else g.log + [Fired(id, false)])
    else g
  }

  function Apply(g: Snapshot, tid: nat, call: Call): (Snapshot, bool) {
    match call
    case Open =>
      if g.open then (g, false) else (g.(open := true, log := g.log + Fires(g.onOpen, true)), true)
    case Close =>
      if g.open then (g.(open := false, log := g.log + Fires(g.onClosed, false)), true) else (g, false)
    case IsOpen => (g, g.open)
    case Register(hook) =>
      (RegisterClosed(RegisterOpen(g, FromCall(tid), hook), FromCall(tid), hook), false)
  }

  /** The ids of the configured hooks that have a callback of the given kind. */
  function Configured(hooks: seq<Hook>, open: bool): seq<HookId> {
    if hooks == [] then []
    else
      var n := |hooks| - 1;
      var present := if open then hooks[n].onOpen else hooks[n].onClosed;
      Configured(hooks[..n], open) + if present then [FromConfig(n)] else []
  }

  function Init(initiallyClosed: bool, hooks: seq<Hook>): Snapshot {
    var onOpen, onClosed := Configured(hooks, true), Configured(hooks, false);
    Snapshot(!initiallyClosed, onOpen, onClosed,
             if initiallyClosed then Fires(onClosed, false) else Fires(onOpen, true))
  }

  /** The gate after a sequence of calls, made one at a time. */
  function Replay(g: Snapshot, ops: seq<LinOp>): Snapshot {
    if ops == [] then g
    else
      var last := ops[|ops| - 1];
      Apply(Replay(g, ops[..|ops| - 1]), last.tid, last.call).0
  }

  /** Every call returned what the sequential gate returns. */
  ghost predicate Legal(g: Snapshot, ops: seq<LinOp>) {
    ops != [] ==>
      var last := ops[|ops| - 1];
      && Legal(g, ops[..|ops| - 1])
      && last.result == Apply(Replay(g, ops[..|ops| - 1]), last.tid, last.call).1
  }

  ghost predicate DistinctTids(ops: seq<LinOp>) {
    forall i, j | 0 <= i < j < |ops| :: ops[i].tid != ops[j].tid
  }

  lemma LegalAppend(g: Snapshot, ops: seq<LinOp>, op: LinOp)
    requires Legal(g, ops) && op.result == Apply(Replay(g, ops), op.tid, op.call).1
    ensures Legal(g, ops + [op])
    ensures Replay(g, ops + [op]) == Apply(Replay(g, ops), op.tid, op.call).0
  {
    assert (ops + [op])[..|ops|] == ops;
  }

  // ---------------------------------------------------------------- what callers were told

  /**
   The successive values of the gate, read off the results alone: the initial value,
   then one entry per Open or Close that returned true.
   */
  function Epochs(initial: bool, ops: seq<LinOp>): (e: seq<bool>)
    ensures e != []
  {
    if ops == [] then [initial]
    else
      var last, before := ops[|ops| - 1], Epochs(initial, ops[..|ops| - 1]);
      if last.call.Open? && last.result then before + [true]
      else if last.call.Close? && last.result then before + [false]
      else before
  }

  ghost predicate Alternating(e: seq<bool>) {
    forall i | 0 <= i < |e| - 1 :: e[i] != e[i + 1]
  }

  /** When, in terms of Epochs, a hook was added. */
  datatype Added = Added(hook: Hook, since: nat)

  function Registration(initial: bool, hooks: seq<Hook>, ops: seq<LinOp>, id: HookId): Option<Added>
    decreases |ops|
  {
    if ops == [] then
      if id.FromConfig? && id.index < |hooks| then Some(Added(hooks[id.index], 0)) else None
    else
      var last, before := ops[|ops| - 1], ops[..|ops| - 1];
      if last.call.Register? && id == FromCall(last.tid)
      then Some(Added(last.call.hook, |Epochs(initial, before)| - 1))
      else Registration(initial, hooks, before, id)
  }

  /** The callbacks of one hook, in the order they ran. */
  function Events(log: seq<Fired>, id: HookId): seq<bool> {
    if log == [] then []
    else
      var last := log[|log| - 1];
      Events(log[..|log| - 1], id) + if last.hook == id then [last.open] else []
  }

  /** The gate values a hook has a callback for. */
  function Heard(hook: Hook, e: seq<bool>): seq<bool> {
    if e == [] then []
    else
      var last := e[|e| - 1];
      Heard(hook, e[..|e| - 1]) + if (if last then hook.onOpen else hook.onClosed) then [last] else []
  }

  /** What a hook must have been told: every gate value from its registration on. */
  function Expected(initial: bool, hooks: seq<Hook>, ops: seq<LinOp>, id: HookId): seq<bool> {
    match Registration(initial, hooks, ops, id)
    case None => []
    case Some(added) =>
      var e := Epochs(initial, ops);
      if added.since < |e| then Heard(added.hook, e[added.since..]) else []
  }

  // ---------------------------------------------------------------- proofs

  lemma EventsAppend(log: seq<Fired>, f: Fired, id: HookId)
    ensures Events(log + [f], id) == Events(log, id) + if f.hook == id then [f.open] else []
  {
    assert (log + [f])[..|log|] == log;
  }

  lemma {:induction false} EventsConcat(a: seq<Fired>, b: seq<Fired>, id: HookId)
    ensures Events(a + b, id) == Events(a, id) + Events(b, id)
  {
    if b == [] {
      assert a + b == a;
    } else {
      var n := |b| - 1;
      EventsConcat(a, b[..n], id);
      EventsAppend(a + b[..n], b[n], id);
      assert a + b == a + b[..n] + [b[n]];
    }
  }

  ghost predicate Distinct(list: seq<HookId>) {
    forall i, j | 0 <= i < j < |list| :: list[i] != list[j]
  }

  lemma {:induction false} EventsFires(list: seq<HookId>, open: bool, id: HookId)
    requires Distinct(list)
    ensures Events(Fires(list, open), id) == if id in list then [open] else []
  {
    if list != [] {
      var n := |list| - 1;
      EventsFires(list[..n], open, id);
      EventsAppend(Fires(list[..n], open), Fired(list[n], open), id);
      assert Fires(list, open) == Fires(list[..n], open) + [Fired(list[n], open)];
      assert list == list[..n] + [list[n]];
    }
  }

  lemma {:induction false} HeardAll(e: seq<bool>)
    ensures Heard(Hook(true, true), e) == e
  {
    if e == [] {
    } else {
      var n := |e| - 1;
      HeardAll(e[..n]);
      HeardAppend(Hook(true, true), e[..n], e[n]);
      assert e == e[..n] + [e[n]];
    }
  }

  lemma HeardAppend(hook: Hook, e: seq<bool>, v: bool)
    ensures Heard(hook, e + [v]) == Heard(hook, e) + if (if v then hook.onOpen else hook.onClosed) then [v] else []
  {
    assert (e + [v])[..|e|] == e;
  }

  lemma OneMore(initial: bool, hooks: seq<Hook>, ops: seq<LinOp>, op: LinOp, id: HookId)
    ensures var e := Epochs(initial, ops);
            Epochs(initial, ops + [op]) ==
            if op.result && (op.call.Open? || op.call.Close?) then e + [op.call.Open?] else e
    ensures Registration(initial, hooks, ops + [op], id) ==
            if op.call.Register? && id == FromCall(op.tid)
            then Some(Added(op.call.hook, |Epochs(initial, ops)| - 1))
            else Registration(initial, hooks, ops, id)
  {
    assert (ops + [op])[..|ops|] == ops;
  }

  /** What the sequential gate keeps, for one hook. */
  ghost predicate HookInv(initial: bool, hooks: seq<Hook>, ops: seq<LinOp>, g: Snapshot, id: HookId) {
    var reg := Registration(initial, hooks, ops, id);
    && (id in g.onOpen <==> reg.Some? && reg.value.hook.onOpen)
    && (id in g.onClosed <==> reg.Some? && reg.value.hook.onClosed)
    && (reg.Some? ==> reg.value.since < |Epochs(initial, ops)|)
    && Events(g.log, id) == Expected(initial, hooks, ops, id)
  }

  lemma {:induction false} ConfiguredMembers(hooks: seq<Hook>, open: bool, id: HookId)
    ensures id in Configured(hooks, open) <==>
            id.FromConfig? && id.index < |hooks| && (if open then hooks[id.index].onOpen else hooks[id.index].onClosed)
    ensures Distinct(Configured(hooks, open))
  {
    if hooks != [] {
      var n := |hooks| - 1;
      ConfiguredMembers(hooks[..n], open, id);
      ConfiguredMembers(hooks[..n], open, FromConfig(n));
    }
  }

  /** The list holds configured hooks below `n`, by increasing index. */
  ghost predicate Indexed(list: seq<HookId>, n: nat) {
    && (forall i | 0 <= i < |list| :: list[i].FromConfig? && list[i].index < n)
    && (forall i, j | 0 <= i < j < |list| :: list[i].index < list[j].index)
  }

  lemma {:induction false} ConfiguredInOrder(hooks: seq<Hook>, open: bool)
    ensures Indexed(Configured(hooks, open), |hooks|)
  {
    if hooks != [] {
      ConfiguredInOrder(hooks[..|hooks| - 1], open);
    }
  }

  /** Whom the callbacks of the initial kind go to. */
  lemma StartLog(hooks: seq<Hook>, open: bool)
    ensures var log := Fires(Configured(hooks, open), open);
            && (forall i | 0 <= i < |log| :: log[i].hook.FromConfig? && log[i].open == open)
            && (forall i, j | 0 <= i < j < |log| :: log[i].hook.index < log[j].hook.index)
            && forall n: nat ::
                 Fired(FromConfig(n), open) in log <==>
                 n < |hooks| && if open then hooks[n].onOpen else hooks[n].onClosed
  {
    var list := Configured(hooks, open);
    ConfiguredInOrder(hooks, open);
    forall n: nat
      ensures Fired(FromConfig(n), open) in Fires(list, open) <==>
              n < |hooks| && if open then hooks[n].onOpen else hooks[n].onClosed
    {
      ConfiguredMembers(hooks, open, FromConfig(n));
      if i :| 0 <= i < |list| && list[i] == FromConfig(n) {
        assert Fires(list, open)[i] == Fired(FromConfig(n), open);
      }
    }
  }

  lemma InitHook(initiallyClosed: bool, hooks: seq<Hook>, id: HookId)
    ensures HookInv(!initiallyClosed, hooks, [], Init(initiallyClosed, hooks), id)
  {
    ConfiguredMembers(hooks, true, id);
    ConfiguredMembers(hooks, false, id);
    EventsFires(Configured(hooks, !initiallyClosed), !initiallyClosed, id);
    if id.FromConfig? && id.index < |hooks| {
      HeardAppend(hooks[id.index], [], !initiallyClosed);
      assert [] + [!initiallyClosed] == [!initiallyClosed];
    }
  }

  ghost predicate HasTid(ops: seq<LinOp>, t: nat) {
    exists i | 0 <= i < |ops| :: ops[i].tid == t
  }

  /** Hooks added by a call are only those of the given calls. */
  ghost predicate OnlyFrom(ops: seq<LinOp>, list: seq<HookId>) {
    forall id | id in list && id.FromCall? :: HasTid(ops, id.tid)
  }

  /** The value, its alternation and the callback lists. */
  ghost predicate Shape(initial: bool, ops: seq<LinOp>, g: Snapshot) {
    var e := Epochs(initial, ops);
    && g.open == e[|e| - 1] && Alternating(e)
    && Distinct(g.onOpen) && OnlyFrom(ops, g.onOpen)
    && Distinct(g.onClosed) && OnlyFrom(ops, g.onClosed)
  }

  lemma InitShape(initiallyClosed: bool, hooks: seq<Hook>)
    ensures Shape(!initiallyClosed, [], Init(initiallyClosed, hooks))
  {
    forall id: HookId
      ensures id in Configured(hooks, true) || id in Configured(hooks, false) ==> id.FromConfig?
    {
      ConfiguredMembers(hooks, true, id);
      ConfiguredMembers(hooks, false, id);
    }
    ConfiguredMembers(hooks, true, FromConfig(0));
    ConfiguredMembers(hooks, false, FromConfig(0));
  }

  lemma ListStep(ops: seq<LinOp>, op: LinOp, list: seq<HookId>)
    requires Distinct(list) && OnlyFrom(ops, list) && !HasTid(ops, op.tid)
    ensures OnlyFrom(ops + [op], list)
    ensures Distinct(list + [FromCall(op.tid)]) && OnlyFrom(ops + [op], list + [FromCall(op.tid)])
  {
    forall t: nat | HasTid(ops, t)
      ensures HasTid(ops + [op], t)
    {
      var i :| 0 <= i < |ops| && ops[i].tid == t;
      assert (ops + [op])[i].tid == t;
    }
    assert (ops + [op])[|ops|].tid == op.tid;
    assert FromCall(op.tid) !in list;
  }

  lemma ShapeStep(initial: bool, ops: seq<LinOp>, op: LinOp, g: Snapshot)
    requires Shape(initial, ops, g) && !HasTid(ops, op.tid)
    requires op.result == Apply(g, op.tid, op.call).1
    ensures Shape(initial, ops + [op], Apply(g, op.tid, op.call).0)
  {
    assert (ops + [op])[..|ops|] == ops;
    ListStep(ops, op, g.onOpen);
    ListStep(ops, op, g.onClosed);
  }

  lemma {:induction false} ReplayShape(initiallyClosed: bool, hooks: seq<Hook>, ops: seq<LinOp>)
    requires Legal(Init(initiallyClosed, hooks), ops) && DistinctTids(ops)
    ensures Shape(!initiallyClosed, ops, Replay(Init(initiallyClosed, hooks), ops))
  {
    if ops == [] {
      InitShape(initiallyClosed, hooks);
    } else {
      var n := |ops| - 1;
      ReplayShape(initiallyClosed, hooks, ops[..n]);
      ShapeStep(!initiallyClosed, ops[..n], ops[n], Replay(Init(initiallyClosed, hooks), ops[..n]));
      assert ops == ops[..n] + [ops[n]];
    }
  }

  /** A successful Open or Close tells every listed hook the new value, once. */
  lemma BroadcastStep(initial: bool, hooks: seq<Hook>, ops: seq<LinOp>, op: LinOp, g: Snapshot, id: HookId,
                      list: seq<HookId>)
    requires HookInv(initial, hooks, ops, g, id) && Distinct(list)
    requires op.result && (op.call.Open? || op.call.Close?)
    requires list == if op.call.Open? then g.onOpen else g.onClosed
    ensures Events(g.log + Fires(list, op.call.Open?), id) == Expected(initial, hooks, ops + [op], id)
  {
    OneMore(initial, hooks, ops, op, id);
    EventsConcat(g.log, Fires(list, op.call.Open?), id);
    EventsFires(list, op.call.Open?, id);
    var reg := Registration(initial, hooks, ops, id);
    if reg.Some? {
      HeardOneMore(reg.value.hook, Epochs(initial, ops), op.call.Open?, reg.value.since);
    }
  }

  lemma HeardOneMore(hook: Hook, e: seq<bool>, v: bool, since: nat)
    requires since < |e|
    ensures Heard(hook, (e + [v])[since..])
            == Heard(hook, e[since..]) + if (if v then hook.onOpen else hook.onClosed) then [v] else []
  {
    HeardAppend(hook, e[since..], v);
    assert (e + [v])[since..] == e[since..] + [v];
  }

  lemma HookStep(initial: bool, hooks: seq<Hook>, ops: seq<LinOp>, op: LinOp, g: Snapshot, id: HookId)
    requires HookInv(initial, hooks, ops, g, id) && Shape(initial, ops, g)
    requires op.result == Apply(g, op.tid, op.call).1
    requires op.call.Register? && id == FromCall(op.tid) ==> Registration(initial, hooks, ops, id).None?
    ensures HookInv(initial, hooks, ops + [op], Apply(g, op.tid, op.call).0, id)
  {
    if op.call.Register? {
      OneMore(initial, hooks, ops, op, id);
      RegisterLists(g, op, id);
      RegisterEvents(initial, hooks, ops, op, g, id);
    } else {
      OneMore(initial, hooks, ops, op, id);
      if op.result && op.call.Open? {
        BroadcastStep(initial, hooks, ops, op, g, id, g.onOpen);
      } else if op.result && op.call.Close? {
        BroadcastStep(initial, hooks, ops, op, g, id, g.onClosed);
      }
    }
  }

  lemma RegisterLists(g: Snapshot, op: LinOp, id: HookId)
    requires op.call.Register?
    ensures var g', me := Apply(g, op.tid, op.call).0, id == FromCall(op.tid);
            && (id in g'.onOpen <==> id in g.onOpen || (me && op.call.hook.onOpen))
            && (id in g'.onClosed <==> id in g.onClosed || (me && op.call.hook.onClosed))
            && Events(g'.log, id) == Events(g.log, id) + if me then Heard(op.call.hook, [g.open]) else []
  {
    var me := FromCall(op.tid);
    EventsAppend(g.log, Fired(me, true), id);
    EventsAppend(RegisterOpen(g, me, op.call.hook).log, Fired(me, false), id);
    HeardAppend(op.call.hook, [], g.open);
    assert [] + [g.open] == [g.open];
  }

  lemma RegisterEvents(initial: bool, hooks: seq<Hook>, ops: seq<LinOp>, op: LinOp, g: Snapshot, id: HookId)
    requires op.call.Register? && HookInv(initial, hooks, ops, g, id) && Shape(initial, ops, g)
    requires id == FromCall(op.tid) ==> Registration(initial, hooks, ops, id).None?
    ensures Expected(initial, hooks, ops + [op], id)
            == if id == FromCall(op.tid) then Heard(op.call.hook, [g.open]) else Expected(initial, hooks, ops, id)
  {
    OneMore(initial, hooks, ops, op, id);
    LastAlone(Epochs(initial, ops));
  }

  lemma LastAlone(e: seq<bool>)
    requires e != []
    ensures e[|e| - 1..] == [e[|e| - 1]]
  {
  }

  lemma {:induction false} Unregistered(initial: bool, hooks: seq<Hook>, ops: seq<LinOp>, tid: nat)
    requires forall i | 0 <= i < |ops| :: ops[i].tid != tid
    ensures Registration(initial, hooks, ops, FromCall(tid)).None?
  {
    if ops != [] {
      Unregistered(initial, hooks, ops[..|ops| - 1], tid);
    }
  }

  /**
   Nothing missed and nothing repeated: after any legal sequence of calls, the callbacks
   each hook has received are exactly the gate values since it was added, starting with
   the value at that moment, restricted to the callbacks it has.
   */
  lemma {:induction false} HookHistory(initiallyClosed: bool, hooks: seq<Hook>, ops: seq<LinOp>, id: HookId)
    requires Legal(Init(initiallyClosed, hooks), ops) && DistinctTids(ops)
    ensures HookInv(!initiallyClosed, hooks, ops, Replay(Init(initiallyClosed, hooks), ops), id)
  {
    if ops == [] {
      InitHook(initiallyClosed, hooks, id);
    } else {
      var n := |ops| - 1;
      HookHistory(initiallyClosed, hooks, ops[..n], id);
      ReplayShape(initiallyClosed, hooks, ops[..n]);
      Unregistered(!initiallyClosed, hooks, ops[..n], ops[n].tid);
      HookStep(!initiallyClosed, hooks, ops[..n], ops[n], Replay(Init(initiallyClosed, hooks), ops[..n]), id);
      assert ops == ops[..n] + [ops[n]];
    }
  }

  /**
   A hook with both callbacks hears a strictly alternating sequence that begins with the
   gate value when it was added and ends with the current one.
   */
  lemma FullHookAlternates(initiallyClosed: bool, hooks: seq<Hook>, ops: seq<LinOp>, id: HookId)
    requires Legal(Init(initiallyClosed, hooks), ops) && DistinctTids(ops)
    requires Registration(!initiallyClosed, hooks, ops, id).Some?
    requires Registration(!initiallyClosed, hooks, ops, id).value.hook == Hook(true, true)
    ensures var g, e := Replay(Init(initiallyClosed, hooks), ops), Epochs(!initiallyClosed, ops);
            var since := Registration(!initiallyClosed, hooks, ops, id).value.since;
            var heard := Events(g.log, id);
            && since < |e| && heard == e[since..] && Alternating(heard)
            && heard[0] == e[since] && heard[|heard| - 1] == g.open
  {
    HookHistory(initiallyClosed, hooks, ops, id);
    ReplayShape(initiallyClosed, hooks, ops);
    AlternatingTail(Epochs(!initiallyClosed, ops), Registration(!initiallyClosed, hooks, ops, id).value.since);
  }

  lemma AlternatingTail(e: seq<bool>, since: nat)
    requires Alternating(e) && since < |e|
    ensures Heard(Hook(true, true), e[since..]) == e[since..] && Alternating(e[since..])
  {
    HeardAll(e[since..]);
    forall i | 0 <= i < |e[since..]| - 1
      ensures e[since..][i] != e[since..][i + 1]
    {
      assert e[since + i] != e[since + i + 1];
    }
  }
}

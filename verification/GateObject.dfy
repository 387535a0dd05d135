/**
 The gate as the object its callers hold: a value, two callback lists, and the log of the
 callbacks it has invoked.  Each method body runs as it does between taking and releasing
 the mutex; GateMachine shows that interleaved calls behave as if run this way.
 */
module GateObject {
  import opened GateSpec

  class Gate {
    var open: bool
    var onOpen: seq<HookId>
    var onClosed: seq<HookId>
    var log: seq<Fired>

    ghost function Abs(): Snapshot
      reads this
    {
      Snapshot(open, onOpen, onClosed, log)
    }

    /** New: collect the configured callbacks, then invoke those that match the initial state. */
    constructor (initiallyClosed: bool, hooks: seq<Hook>)
      ensures Abs() == Init(initiallyClosed, hooks)
      ensures open == !initiallyClosed
      ensures forall i | 0 <= i < |log| :: log[i].hook.FromConfig? && log[i].open == open
      ensures forall i, j | 0 <= i < j < |log| :: log[i].hook.index < log[j].hook.index
      ensures forall n: nat ::
                Fired(FromConfig(n), open) in log <==>
                n < |hooks| && if open then hooks[n].onOpen else hooks[n].onClosed
    {
      open, onOpen, onClosed, log := true, [], [], [];
      new;
      var i := 0;
      while i < |hooks|
        invariant 0 <= i <= |hooks|
        invariant onOpen == Configured(hooks[..i], true) && onClosed == Configured(hooks[..i], false)
        invariant log == [] && open
      {
        if hooks[i].onOpen {
          onOpen := onOpen + [FromConfig(i)];
        }
        if hooks[i].onClosed {
          onClosed := onClosed + [FromConfig(i)];
        }
        assert hooks[..i + 1][..i] == hooks[..i];
        i := i + 1;
      }
      assert hooks[..i] == hooks;
      if initiallyClosed {
        open := false;
        On(onClosed, false);
      } else {
        On(onOpen, true);
      }
      StartLog(hooks, open);
    }

    /** callbacks.on: invoke each callback in turn. */
    method On(list: seq<HookId>, kind: bool)
      modifies this`log
      ensures log == old(log) + Fires(list, kind)
    {
      var i := 0;
      while i < |list|
        invariant 0 <= i <= |list|
        invariant log == old(log) + Fires(list[..i], kind)
      {
        log := log + [Fired(list[i], kind)];
        assert Fires(list[..i + 1], kind) == Fires(list[..i], kind) + [Fired(list[i], kind)];
        i := i + 1;
      }
      assert list[..i] == list;
    }

    method Register(ghost tid: nat, hook: Hook, id: HookId)
      requires id == FromCall(tid)
      modifies this
      ensures Abs() == Apply(old(Abs()), tid, GateSpec.Register(hook)).0
    {
      if !hook.onOpen && !hook.onClosed {
        return;
      }
      var isOpen := open;
      if hook.onOpen {
        onOpen := onOpen + [id];
        if isOpen {
          log := log + [Fired(id, true)];
        }
      }
      if hook.onClosed {
        onClosed := onClosed + [id];
        if !isOpen {
          log := log + [Fired(id, false)];
        }
      }
    }

    /** status.open and status.close: compare and swap. */
    method CompareAndSwap(expected: bool, value: bool) returns (swapped: bool)
      modifies this`open
      ensures swapped <==> old(open) == expected
      ensures open == if swapped then value else old(open)
    {
      swapped := open == expected;
      if swapped {
        open := value;
      }
    }

    method Open(ghost tid: nat) returns (changed: bool)
      modifies this
      ensures (Abs(), changed) == Apply(old(Abs()), tid, GateSpec.Open)
    {
      if open {
        return false;
      }
      changed := CompareAndSwap(false, true);
      if changed {
        On(onOpen, true);
      }
    }

    method Close(ghost tid: nat) returns (closed: bool)
      modifies this
      ensures (Abs(), closed) == Apply(old(Abs()), tid, GateSpec.Close)
    {
      if !open {
        return false;
      }
      closed := CompareAndSwap(true, false);
      if closed {
        On(onClosed, false);
      }
    }
  }
}

/**
 The observing response writer, over any sequence of calls.

 A call history says which methods were called, with the counts that the delegate returned
 for the writes.  Status, ContentLength, the callbacks fired and the calls made on the
 delegate are functions of the history, without reference to the fields of the writer; the
 class keeps its fields equal to them.  Callbacks do not call back into the writer.
 */
module Observe {
  import opened Sequences
  import opened Options

  /** A call of a method of the writer; `count` is what the delegate returned. */
  datatype Call =
    | OnWriteHeader(callbacks: seq<nat>)
    | WriteHeader(status: int)
    | Write(count: int)
    | Flush
    | ReadFrom(count: int)

  /** What the writer does: run a callback, or call the delegate. */
  datatype Event = Fired(callback: nat, status: int) | Delegated(call: Call)

  const STATUS_OK := 200

  /** Wrap-around of int64. */
  function Int64(x: int): int {
    (x + 0x8000_0000_0000_0000) % 0x1_0000_0000_0000_0000 - 0x8000_0000_0000_0000
  }

  // ---------------------------------------------------------------- what a history means

  /** The number of registrations before the first call that needs a header. */
  function Lead(calls: seq<Call>): (n: nat)
    ensures n <= |calls|
    ensures forall k | 0 <= k < n :: calls[k].OnWriteHeader?
    ensures n < |calls| ==> !calls[n].OnWriteHeader?
  {
    if calls == [] || !calls[0].OnWriteHeader? then 0 else 1 + Lead(calls[1..])
  }

  /** The status code of the response, once there is one. */
  function Status(calls: seq<Call>): Option<int> {
    var n := Lead(calls);
    if n == |calls| then None
    else if calls[n].WriteHeader? then Some(calls[n].status)
    else Some(STATUS_OK)
  }

  /** The index of the first call whose events come after the header. */
  function Rest(calls: seq<Call>): (k: nat)
    requires Status(calls).Some?
    ensures Lead(calls) <= k <= |calls|
  {
    var n := Lead(calls);
    if calls[n].WriteHeader? then n + 1 else n
  }

  /** All callbacks, in the order of registration. */
  function Registered(calls: seq<Call>): seq<nat> {
    if calls == [] then []
    else (if calls[0].OnWriteHeader? then calls[0].callbacks else []) + Registered(calls[1..])
  }

  /** The bytes the delegate said it wrote. */
  function Sent(calls: seq<Call>): int {
    if calls == [] then 0
    else (if calls[0].Write? || calls[0].ReadFrom? then calls[0].count else 0) + Sent(calls[1..])
  }

  /** The calls that go to the delegate as they are. */
  function Forwarded(calls: seq<Call>): seq<Call> {
    if calls == [] then []
    else (if calls[0].OnWriteHeader? then [] else [calls[0]]) + Forwarded(calls[1..])
  }

  /** What the delegate is to see: a header first, and then everything unchanged. */
  function DelegateView(calls: seq<Call>): seq<Call> {
    var n := Lead(calls);
    (if n < |calls| && !calls[n].WriteHeader? then [WriteHeader(STATUS_OK)] else []) + Forwarded(calls)
  }

  function Firing(callbacks: seq<nat>, status: int): seq<Event> {
    seq(|callbacks|, i requires 0 <= i < |callbacks| => Fired(callbacks[i], status))
  }

  /** The events of the calls after the header. */
  function Later(calls: seq<Call>, status: int): seq<Event> {
    if calls == [] then []
    else (if calls[0].OnWriteHeader? then Firing(calls[0].callbacks, status) else [Delegated(calls[0])])
         + Later(calls[1..], status)
  }

  /** The callbacks registered by the time of the header, the header, and the rest. */
  function Whole(callbacks: seq<nat>, status: int, rest: seq<Call>): seq<Event> {
    Firing(callbacks, status) + [Delegated(WriteHeader(status))] + Later(rest, status)
  }

  /** Every event, in order. */
  function Events(calls: seq<Call>): seq<Event> {
    var n := Lead(calls);
    match Status(calls)
    case None => []
    case Some(status) => Whole(Registered(calls[..n]), status, calls[Rest(calls)..])
  }

  /** The callbacks among the events. */
  function Firings(events: seq<Event>): seq<Event> {
    if events == [] then []
    else (if events[0].Fired? then [events[0]] else []) + Firings(events[1..])
  }

  /** The calls on the delegate among the events. */
  function Delegations(events: seq<Event>): seq<Call> {
    if events == [] then []
    else (if events[0].Delegated? then [events[0].call] else []) + Delegations(events[1..])
  }

  // ---------------------------------------------------------------- sequences

  lemma Concatenated(a: seq<Call>, b: seq<Call>)
    ensures Registered(a + b) == Registered(a) + Registered(b)
    ensures Forwarded(a + b) == Forwarded(a) + Forwarded(b)
    ensures Sent(a + b) == Sent(a) + Sent(b)
  {
    RegisteredConcat(a, b);
    ForwardedConcat(a, b);
    SentConcat(a, b);
  }

  lemma {:induction false} RegisteredConcat(a: seq<Call>, b: seq<Call>)
    ensures Registered(a + b) == Registered(a) + Registered(b)
  {
    if a == [] {
      assert a + b == b;
    } else {
      RegisteredConcat(a[1..], b);
      assert (a + b)[0] == a[0] && (a + b)[1..] == a[1..] + b;
      Associative((if a[0].OnWriteHeader? then a[0].callbacks else []), Registered(a[1..]), Registered(b));
    }
  }

  lemma {:induction false} ForwardedConcat(a: seq<Call>, b: seq<Call>)
    ensures Forwarded(a + b) == Forwarded(a) + Forwarded(b)
  {
    if a == [] {
      assert a + b == b;
    } else {
      ForwardedConcat(a[1..], b);
      assert (a + b)[0] == a[0] && (a + b)[1..] == a[1..] + b;
      Associative((if a[0].OnWriteHeader? then [] else [a[0]]), Forwarded(a[1..]), Forwarded(b));
    }
  }

  lemma {:induction false} SentConcat(a: seq<Call>, b: seq<Call>)
    ensures Sent(a + b) == Sent(a) + Sent(b)
  {
    if a == [] {
      assert a + b == b;
    } else {
      SentConcat(a[1..], b);
      assert (a + b)[0] == a[0] && (a + b)[1..] == a[1..] + b;
    }
  }

  lemma {:induction false} LaterConcat(a: seq<Call>, b: seq<Call>, status: int)
    ensures Later(a + b, status) == Later(a, status) + Later(b, status)
  {
    if a == [] {
      assert a + b == b;
    } else {
      assert (a + b)[1..] == a[1..] + b;
      LaterConcat(a[1..], b, status);
    }
  }

  lemma {:induction false} LeadConcat(a: seq<Call>, b: seq<Call>)
    ensures Lead(a + b) == if Lead(a) < |a| then Lead(a) else |a| + Lead(b)
  {
    if a == [] {
      assert a + b == b;
    } else {
      assert (a + b)[1..] == a[1..] + b;
      LeadConcat(a[1..], b);
    }
  }

  lemma EventsConcat(a: seq<Event>, b: seq<Event>)
    ensures Firings(a + b) == Firings(a) + Firings(b)
    ensures Delegations(a + b) == Delegations(a) + Delegations(b)
  {
    FiringsConcat(a, b);
    DelegationsConcat(a, b);
  }

  lemma {:induction false} FiringsConcat(a: seq<Event>, b: seq<Event>)
    ensures Firings(a + b) == Firings(a) + Firings(b)
  {
    if a == [] {
      assert a + b == b;
    } else {
      FiringsConcat(a[1..], b);
      assert (a + b)[0] == a[0] && (a + b)[1..] == a[1..] + b;
      Associative((if a[0].Fired? then [a[0]] else []), Firings(a[1..]), Firings(b));
    }
  }

  lemma {:induction false} DelegationsConcat(a: seq<Event>, b: seq<Event>)
    ensures Delegations(a + b) == Delegations(a) + Delegations(b)
  {
    if a == [] {
      assert a + b == b;
    } else {
      DelegationsConcat(a[1..], b);
      assert (a + b)[0] == a[0] && (a + b)[1..] == a[1..] + b;
      Associative((if a[0].Delegated? then [a[0].call] else []), Delegations(a[1..]), Delegations(b));
    }
  }

  lemma {:induction false} OfFiring(callbacks: seq<nat>, status: int)
    ensures Firings(Firing(callbacks, status)) == Firing(callbacks, status)
    ensures Delegations(Firing(callbacks, status)) == []
    decreases |callbacks|
  {
    if callbacks != [] {
      OfFiring(callbacks[1..], status);
      assert Firing(callbacks, status)[1..] == Firing(callbacks[1..], status);
    }
  }

  lemma FiringConcat(a: seq<nat>, b: seq<nat>, status: int)
    ensures Firing(a + b, status) == Firing(a, status) + Firing(b, status)
  {
  }

  lemma {:induction false} OfLater(calls: seq<Call>, status: int)
    ensures Firings(Later(calls, status)) == Firing(Registered(calls), status)
    ensures Delegations(Later(calls, status)) == Forwarded(calls)
  {
    if calls != [] {
      var first := if calls[0].OnWriteHeader? then Firing(calls[0].callbacks, status) else [Delegated(calls[0])];
      EventsConcat(first, Later(calls[1..], status));
      OfLater(calls[1..], status);
      if calls[0].OnWriteHeader? {
        OfFiring(calls[0].callbacks, status);
        FiringConcat(calls[0].callbacks, Registered(calls[1..]), status);
      } else {
        assert [Delegated(calls[0])][1..] == [];
      }
    }
  }

  lemma {:induction false} OnlyRegistrations(calls: seq<Call>)
    requires forall k | 0 <= k < |calls| :: calls[k].OnWriteHeader?
    ensures Forwarded(calls) == [] && Sent(calls) == 0
  {
    if calls != [] {
      OnlyRegistrations(calls[1..]);
    }
  }

  // ---------------------------------------------------------------- one call more

  /** The implicit header: due when a call needs one and there is none yet. */
  function Implicit(calls: seq<Call>): seq<Event> {
    if Status(calls).Some? then [] else Firing(Registered(calls), STATUS_OK) + [Delegated(WriteHeader(STATUS_OK))]
  }

  /** What one more call adds: events that depend on whether there is a status yet. */
  function Added(calls: seq<Call>, call: Call): seq<Event> {
    match Status(calls)
    case Some(status) => if call.OnWriteHeader? then Firing(call.callbacks, status) else [Delegated(call)]
    case None =>
      match call
      case OnWriteHeader(_) => []
      case WriteHeader(status) => Firing(Registered(calls), status) + [Delegated(call)]
      case _ => Implicit(calls) + [Delegated(call)]
  }

  lemma OneMore(calls: seq<Call>, call: Call)
    ensures Events(calls + [call]) == Events(calls) + Added(calls, call)
    ensures Status(calls + [call]) ==
              if Status(calls).Some? || call.OnWriteHeader? then Status(calls)
              else if call.WriteHeader? then Some(call.status) else Some(STATUS_OK)
    ensures Registered(calls + [call]) == Registered(calls) + if call.OnWriteHeader? then call.callbacks else []
    ensures Sent(calls + [call]) == Sent(calls) + if call.Write? || call.ReadFrom? then call.count else 0
  {
    Concatenated(calls, [call]);
    LeadConcat(calls, [call]);
    assert [call][1..] == [];
    if Status(calls).Some? {
      OneMoreLater(calls, call);
    } else if !call.OnWriteHeader? {
      OneMoreFirst(calls, call);
    }
  }

  /** One more call that goes to the delegate after the header, implicit or not. */
  lemma OneMoreForwarded(calls: seq<Call>, call: Call)
    requires call.Write? || call.ReadFrom? || call.Flush?
    ensures Events(calls + [call]) == Events(calls) + Implicit(calls) + [Delegated(call)]
    ensures Status(calls + [call]) == if Status(calls).Some? then Status(calls) else Some(STATUS_OK)
    ensures Sent(calls + [call]) == Sent(calls) + if call.Flush? then 0 else call.count
  {
    hide Events, Status, Sent, Registered;
    OneMore(calls, call);
    Associative(Events(calls), Implicit(calls), [Delegated(call)]);
  }

  lemma OneMoreLater(calls: seq<Call>, call: Call)
    requires Status(calls).Some?
    ensures Events(calls + [call]) == Events(calls) + Added(calls, call)
  {
    var n, all, status := Lead(calls), calls + [call], Status(calls).value;
    LeadConcat(calls, [call]);
    assert all[n] == calls[n] && Rest(all) == Rest(calls) && Status(all) == Status(calls);
    assert all[..n] == calls[..n] && all[Rest(calls)..] == calls[Rest(calls)..] + [call];
    WholeConcat(Registered(calls[..n]), status, calls[Rest(calls)..], [call]);
    assert [call][1..] == [];
    assert Later([call], status) == Added(calls, call);
  }

  lemma WholeConcat(callbacks: seq<nat>, status: int, rest: seq<Call>, more: seq<Call>)
    ensures Whole(callbacks, status, rest + more) == Whole(callbacks, status, rest) + Later(more, status)
  {
    LaterConcat(rest, more, status);
    Associative(Firing(callbacks, status) + [Delegated(WriteHeader(status))], Later(rest, status), Later(more, status));
  }

  lemma OneMoreFirst(calls: seq<Call>, call: Call)
    requires Status(calls) == None && !call.OnWriteHeader?
    ensures Events(calls + [call]) == Added(calls, call)
  {
    var n, all := |calls|, calls + [call];
    LeadConcat(calls, [call]);
    assert Lead([call]) == 0;
    assert all[..n] == calls && all[n..] == [call] && all[n + 1..] == [];
    assert [call][1..] == [];
    var status := if call.WriteHeader? then call.status else STATUS_OK;
    assert Status(all) == Some(status);
    assert Later([call], status) == [Delegated(call)];
  }

  // ---------------------------------------------------------------- the laws

  lemma EventsParts(calls: seq<Call>)
    requires Status(calls).Some?
    ensures var status, k := Status(calls).value, Rest(calls);
            && Firings(Events(calls)) ==
                 Firing(Registered(calls[..Lead(calls)]), status) + Firing(Registered(calls[k..]), status)
            && Delegations(Events(calls)) == [WriteHeader(status)] + Forwarded(calls[k..])
  {
    var status := Status(calls).value;
    AroundHeader(Registered(calls[..Lead(calls)]), Later(calls[Rest(calls)..], status), status);
    OfLater(calls[Rest(calls)..], Status(calls).value);
  }

  lemma OfHeader(status: int)
    ensures var header := [Delegated(WriteHeader(status))];
            Firings(header) == [] && Delegations(header) == [WriteHeader(status)]
  {
    assert [Delegated(WriteHeader(status))][1..] == [];
  }

  lemma AroundHeader(callbacks: seq<nat>, later: seq<Event>, status: int)
    ensures var events := Firing(callbacks, status) + [Delegated(WriteHeader(status))] + later;
            && Firings(events) == Firing(callbacks, status) + Firings(later)
            && Delegations(events) == [WriteHeader(status)] + Delegations(later)
  {
    var before, header := Firing(callbacks, status), [Delegated(WriteHeader(status))];
    OfHeader(status);
    OfFiring(callbacks, status);
    hide Firing, Firings, Delegations;
    EventsConcat(before + header, later);
    EventsConcat(before, header);
    assert Firings(before) + [] == Firings(before);
  }

  lemma CallsParts(calls: seq<Call>)
    requires Status(calls).Some?
    ensures var n, k := Lead(calls), Rest(calls);
            && Registered(calls) == Registered(calls[..n]) + Registered(calls[k..])
            && Forwarded(calls) == (if calls[n].WriteHeader? then [calls[n]] else []) + Forwarded(calls[k..])
  {
    var n, k := Lead(calls), Rest(calls);
    assert calls == calls[..n] + calls[n..];
    Concatenated(calls[..n], calls[n..]);
    OnlyRegistrations(calls[..n]);
    if calls[n].WriteHeader? {
      HeaderCall(calls[n..]);
      assert calls[n..][1..] == calls[n + 1..];
    }
  }

  lemma HeaderCall(calls: seq<Call>)
    requires calls != [] && calls[0].WriteHeader?
    ensures Registered(calls) == Registered(calls[1..]) && Forwarded(calls) == [calls[0]] + Forwarded(calls[1..])
  {
  }

  /**
   Once there is a status, every callback ever registered has fired, in order of registration,
   once each and with that status; before, none has.
   */
  lemma CallbacksFireOnce(calls: seq<Call>)
    ensures Firings(Events(calls)) ==
              match Status(calls)
              case None => []
              case Some(status) => Firing(Registered(calls), status)
  {
    if Status(calls).Some? {
      EventsParts(calls);
      CallsParts(calls);
      FiringConcat(Registered(calls[..Lead(calls)]), Registered(calls[Rest(calls)..]), Status(calls).value);
    }
  }

  lemma ViewParts(calls: seq<Call>)
    requires Status(calls).Some?
    ensures DelegateView(calls) == [WriteHeader(Status(calls).value)] + Forwarded(calls[Rest(calls)..])
  {
    CallsParts(calls);
    if !calls[Lead(calls)].WriteHeader? {
      assert Forwarded(calls) == Forwarded(calls[Rest(calls)..]);
    }
  }

  /** The delegate sees a header before anything else, and otherwise every call unchanged. */
  lemma DelegateSeesHeaderFirst(calls: seq<Call>)
    ensures Delegations(Events(calls)) == DelegateView(calls)
    ensures match Status(calls)
            case None => Delegations(Events(calls)) == []
            case Some(status) => [WriteHeader(status)] <= Delegations(Events(calls))
  {
    if Status(calls).Some? {
      EventsParts(calls);
      ViewParts(calls);
    } else {
      OnlyRegistrations(calls);
    }
  }

  /** A status never changes, and what has happened is never taken back. */
  lemma NothingTakenBack(calls: seq<Call>, more: seq<Call>) returns (later: seq<Event>)
    ensures Status(calls).Some? ==> Status(calls + more) == Status(calls)
    ensures Events(calls + more) == Events(calls) + later
  {
    if Status(calls).Some? {
      var n, all, status := Lead(calls), calls + more, Status(calls).value;
      LeadConcat(calls, more);
      assert all[n] == calls[n] && Rest(all) == Rest(calls) && Status(all) == Status(calls);
      assert all[..n] == calls[..n] && all[Rest(calls)..] == calls[Rest(calls)..] + more;
      later := Later(more, status);
      WholeConcat(Registered(calls[..n]), status, calls[Rest(calls)..], more);
    } else {
      later := Events(calls + more);
    }
  }

  /** Call `h` is the first that needs a header, if there is one. */
  ghost predicate HeaderAt(calls: seq<Call>, h: nat) {
    && h <= |calls| && (forall k | 0 <= k < h :: calls[k].OnWriteHeader?)
    && (h < |calls| ==> !calls[h].OnWriteHeader?)
  }

  /** What follows `before` are the given callbacks in order, with this status, and then these delegated calls. */
  ghost predicate Then(events: seq<Event>, before: seq<Event>, callbacks: seq<nat>, status: int, delegated: seq<Call>) {
    && |events| == |before| + |callbacks| + |delegated| && before <= events
    && (forall i | 0 <= i < |callbacks| :: events[|before| + i] == Fired(callbacks[i], status))
    && forall i | 0 <= i < |delegated| :: events[|before| + |callbacks| + i] == Delegated(delegated[i])
  }

  /** The status of a history: that of its first call if it is WriteHeader, 200 for any other that needs a header. */
  lemma StatusIs(calls: seq<Call>, h: nat)
    requires HeaderAt(calls, h)
    ensures Status(calls) == if h == |calls| then None
                             else Some(if calls[h].WriteHeader? then calls[h].status else 200)
  {
    assert Lead(calls) == h;
  }

  /**
   One call after another, from none: a registration before any header is kept; the first call that needs a
   header fires what has been registered, writes the header, and follows itself unless it is that header; after
   that, a registration fires at once and every other call goes to the delegate.
   */
  lemma EachCall(calls: seq<Call>, call: Call, h: nat)
    requires HeaderAt(calls, h)
    ensures Events([]) == [] && Registered([]) == [] && Sent([]) == 0
    ensures Registered(calls + [call]) == Registered(calls) + (if call.OnWriteHeader? then call.callbacks else [])
    ensures Sent(calls + [call]) == Sent(calls) + (if call.Write? || call.ReadFrom? then call.count else 0)
    ensures var before, after := Events(calls), Events(calls + [call]);
            if h < |calls| then
              var status := if calls[h].WriteHeader? then calls[h].status else 200;
              if call.OnWriteHeader? then Then(after, before, call.callbacks, status, [])
              else Then(after, before, [], status, [call])
            else
              before == [] &&
              match call
              case OnWriteHeader(_) => after == []
              case WriteHeader(status) => Then(after, [], Registered(calls), status, [call])
              case _ => Then(after, [], Registered(calls), 200, [WriteHeader(200), call])
  {
    NoEventsYet([]);
    StatusIs(calls, h);
    OneMore(calls, call);
    if h == |calls| {
      NoEventsYet(calls);
    }
    hide Events, Status, Lead, Registered, Sent, Then;
    if h < |calls| {
      var status := if calls[h].WriteHeader? then calls[h].status else 200;
      if call.OnWriteHeader? {
        ThenFired(Events(calls), call.callbacks, status);
      } else {
        ThenCalled(Events(calls), status, call);
      }
    } else if call.WriteHeader? {
      ThenFirst(Registered(calls), call.status, call);
    } else if !call.OnWriteHeader? {
      ThenImplicit(Registered(calls), 200, call);
    }
  }

  lemma NoEventsYet(calls: seq<Call>)
    requires Status(calls) == None
    ensures Events(calls) == []
  {
  }

  lemma ThenFired(before: seq<Event>, callbacks: seq<nat>, status: int)
    ensures Then(before + Firing(callbacks, status), before, callbacks, status, [])
  {
  }

  lemma ThenCalled(before: seq<Event>, status: int, call: Call)
    ensures Then(before + [Delegated(call)], before, [], status, [call])
  {
  }

  lemma ThenFirst(callbacks: seq<nat>, status: int, call: Call)
    ensures Then([] + (Firing(callbacks, status) + [Delegated(call)]), [], callbacks, status, [call])
  {
  }

  lemma ThenImplicit(callbacks: seq<nat>, status: int, call: Call)
    ensures Then([] + (Firing(callbacks, status) + [Delegated(WriteHeader(status))] + [Delegated(call)]),
                 [], callbacks, status, [WriteHeader(status), call])
  {
  }

  lemma Int64Adds(a: int, c: int)
    ensures Int64(Int64(a) + c) == Int64(a + c)
  {
    var m := 0x1_0000_0000_0000_0000;
    var q := (a + 0x8000_0000_0000_0000) / m;
    assert Int64(a) == a - q * m;
    assert (a + c + 0x8000_0000_0000_0000 - q * m) % m == (a + c + 0x8000_0000_0000_0000) % m by {
      ShiftMod(a + c + 0x8000_0000_0000_0000, q);
    }
  }

  lemma ShiftMod(x: int, q: int)
    ensures (x - q * 0x1_0000_0000_0000_0000) % 0x1_0000_0000_0000_0000 == x % 0x1_0000_0000_0000_0000
  {
  }

  // ---------------------------------------------------------------- the writer

  class ResponseWriterDecorator {
    var headerWritten: bool
    var onWriteHeader: seq<nat>
    var statusCode: int
    var contentLength: int
    /** The calls so far. */
    ghost var calls: seq<Call>
    /** What has happened to the callbacks and the delegate. */
    ghost var events: seq<Event>

    ghost predicate Valid()
      reads this
    {
      && headerWritten == Status(calls).Some?
      && (!headerWritten ==> onWriteHeader == Registered(calls))
      && statusCode == (if Status(calls).Some? then Status(calls).value else 0)
      && contentLength == Int64(Sent(calls))
      && events == Events(calls)
    }

    constructor ()
      ensures Valid() && calls == []
    {
      headerWritten, onWriteHeader, statusCode, contentLength := false, [], 0, 0;
      calls, events := [], [];
    }

    /** Zero until a header is written, then the first status code for ever. */
    method StatusCode() returns (code: int)
      requires Valid()
      ensures code == if Status(calls).Some? then Status(calls).value else 0
    {
      code := statusCode;
    }

    method ContentLength() returns (n: int)
      requires Valid()
      ensures n == Int64(Sent(calls))
      ensures -0x8000_0000_0000_0000 <= Sent(calls) < 0x8000_0000_0000_0000 ==> n == Sent(calls)
    {
      n := contentLength;
    }

    method OnWriteHeader(callbacks: seq<nat>)
      requires Valid()
      modifies this
      ensures Valid() && calls == old(calls) + [Call.OnWriteHeader(callbacks)]
    {
      OneMore(calls, Call.OnWriteHeader(callbacks));
      if headerWritten {
        for i := 0 to |callbacks|
          invariant events == old(events) + Firing(callbacks[..i], statusCode)
          invariant unchanged(this`headerWritten, this`onWriteHeader, this`statusCode, this`contentLength, this`calls)
        {
          events := events + [Fired(callbacks[i], statusCode)];
        }
        assert callbacks[..|callbacks|] == callbacks;
      } else {
        onWriteHeader := onWriteHeader + callbacks;
      }
      calls := calls + [Call.OnWriteHeader(callbacks)];
    }

    method WriteHeader(status: int)
      requires Valid()
      modifies this
      ensures Valid() && calls == old(calls) + [Call.WriteHeader(status)]
    {
      OneMore(calls, Call.WriteHeader(status));
      hide Events, Status, Sent, Registered, Lead;
      FireAndForward(status);
      calls := calls + [Call.WriteHeader(status)];
    }

    /** The body of WriteHeader, which the other calls share for their implicit header. */
    method FireAndForward(status: int)
      requires !headerWritten ==> onWriteHeader == Registered(calls)
      modifies this`headerWritten, this`statusCode, this`events
      ensures headerWritten && statusCode == if old(headerWritten) then old(statusCode) else status
      ensures events == old(events) + (if old(headerWritten) then [] else Firing(Registered(calls), status))
                        + [Delegated(Call.WriteHeader(status))]
    {
      if !headerWritten {
        statusCode := status;
        for i := 0 to |onWriteHeader|
          invariant events == old(events) + Firing(onWriteHeader[..i], status)
          invariant statusCode == status && headerWritten == old(headerWritten)
        {
          events := events + [Fired(onWriteHeader[i], status)];
        }
        assert onWriteHeader[..|onWriteHeader|] == onWriteHeader;
      }
      headerWritten := true;
      events := events + [Delegated(Call.WriteHeader(status))];
    }

    /** The implicit header of Write, Flush and ReadFrom. */
    method NeedHeader()
      requires Valid()
      modifies this`headerWritten, this`statusCode, this`events
      ensures headerWritten
      ensures statusCode == if Status(calls).Some? then Status(calls).value else STATUS_OK
      ensures events == Events(calls) + Implicit(calls)
    {
      if !headerWritten {
        FireAndForward(STATUS_OK);
      }
    }

    /** The delegate takes the write and says how many bytes it wrote. */
    method Write() returns (count: int)
      requires Valid()
      modifies this
      ensures Valid() && calls == old(calls) + [Call.Write(count)]
    {
      hide Events, Status, Sent, Registered, Implicit, Int64, Lead;
      NeedHeader();
      count := *;
      OneMoreForwarded(calls, Call.Write(count));
      Int64Adds(Sent(calls), count);
      events := events + [Delegated(Call.Write(count))];
      contentLength := Int64(contentLength + count);
      calls := calls + [Call.Write(count)];
    }

    method Flush()
      requires Valid()
      modifies this
      ensures Valid() && calls == old(calls) + [Call.Flush]
    {
      hide Events, Status, Sent, Registered, Implicit, Int64, Lead;
      NeedHeader();
      OneMoreForwarded(calls, Call.Flush);
      events := events + [Delegated(Call.Flush)];
      calls := calls + [Call.Flush];
    }

    method ReadFrom() returns (count: int)
      requires Valid()
      modifies this
      ensures Valid() && calls == old(calls) + [Call.ReadFrom(count)]
    {
      hide Events, Status, Sent, Registered, Implicit, Int64, Lead;
      NeedHeader();
      count := *;
      OneMoreForwarded(calls, Call.ReadFrom(count));
      Int64Adds(Sent(calls), count);
      events := events + [Delegated(Call.ReadFrom(count))];
      contentLength := Int64(contentLength + count);
      calls := calls + [Call.ReadFrom(count)];
    }
  }
}

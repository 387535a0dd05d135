/**
 Round trippers that may or may not expose CloseIdleConnections, the Decorator that pairs the
 one with the other, and chains of constructors.

 A round tripper is known by what its methods do.  A behaviour is an opaque identity: two
 methods with the same identity cannot be told apart.  Calling a method through a nil
 interface panics.
 */
module RoundTrip {
  datatype Effect = Panics | Runs(id: nat)

  /** An interface value holding a CloseIdler: nil, a round tripper that exposes it, or a function. */
  datatype Closer = NoCloser | Of(rt: RT) | Func(id: nat)

  /**
   An http.RoundTripper: nil, a Decorator, or any other type, whose CloseIdleConnections (if
   `exposes`) does `closing`.
   */
  datatype RT =
    | Nil
    | Decorator(inner: RT, closer: Closer)
    | Other(tripping: Effect, exposes: bool, closing: Effect)

  type Constructor = RT -> RT

  // ---------------------------------------------------------------- what can be observed

  /** What RoundTrip does. */
  function Trip(rt: RT): Effect {
    match rt
    case Nil => Panics
    case Decorator(inner, _) => Trip(inner)
    case Other(tripping, _, _) => tripping
  }

  /** Whether the value has a CloseIdleConnections method. */
  predicate Exposes(rt: RT) {
    rt.Decorator? || (rt.Other? && rt.exposes)
  }

  /** What that method does. */
  function Close(rt: RT): Effect {
    match rt
    case Nil => Panics
    case Decorator(_, NoCloser) => Panics
    case Decorator(_, Of(owner)) => Close(owner)
    case Decorator(_, Func(id)) => Runs(id)
    case Other(_, exposes, closing) => if exposes then closing else Panics
  }

  /** No use of the methods tells the two apart. */
  ghost predicate Same(a: RT, b: RT) {
    && (a == Nil <==> b == Nil) && Trip(a) == Trip(b)
    && Exposes(a) == Exposes(b) && (Exposes(a) ==> Close(a) == Close(b))
  }

  // ---------------------------------------------------------------- PreserveCloseIdler

  function PreserveCloseIdler(next: RT, decorator: RT): RT {
    if Exposes(decorator) then decorator
    else if next.Decorator? then Decorator(decorator, next.closer)
    else if Exposes(next) then Decorator(decorator, Of(next))
    else decorator
  }

  /** The same without the shortcut for a next that is a Decorator itself. */
  function Nest(next: RT, decorator: RT): RT {
    if !Exposes(decorator) && Exposes(next) then Decorator(decorator, Of(next)) else decorator
  }

  /** RoundTrip is the decorator's; CloseIdleConnections is the decorator's, else next's. */
  lemma PreserveMeans(next: RT, decorator: RT)
    ensures var rt := PreserveCloseIdler(next, decorator);
            && Trip(rt) == Trip(decorator)
            && Exposes(rt) == (Exposes(decorator) || Exposes(next))
            && (Exposes(rt) ==> Close(rt) == Close(if Exposes(decorator) then decorator else next))
            && (rt == Nil <==> decorator == Nil && !Exposes(next))
            && Same(rt, Nest(next, decorator))
  {
  }

  // ---------------------------------------------------------------- Then

  /** Chain.Then after the check for nil: the first constructor is outermost. */
  function Fold(ctors: seq<Constructor>, next: RT): RT {
    if ctors == [] then next
    else
      var rest := Fold(ctors[1..], next);
      PreserveCloseIdler(rest, ctors[0](rest))
  }

  /** `transport` is http.DefaultTransport. */
  function ThenOf(transport: RT, ctors: seq<Constructor>, next: RT): RT {
    Fold(ctors, if next == Nil then transport else next)
  }

  /** What the i-th constructor is given, and what it gives back. */
  function Input(ctors: seq<Constructor>, next: RT, i: nat): RT
    requires i < |ctors|
  {
    Fold(ctors[i + 1..], next)
  }

  function Output(ctors: seq<Constructor>, next: RT, i: nat): RT
    requires i < |ctors|
  {
    ctors[i](Input(ctors, next, i))
  }

  /** The outermost constructor whose output exposes CloseIdleConnections, or the length. */
  function Outermost(ctors: seq<Constructor>, next: RT): (k: nat)
    ensures k <= |ctors|
    ensures forall i | 0 <= i < k :: !Exposes(Output(ctors, next, i))
    ensures k < |ctors| ==> Exposes(Output(ctors, next, k))
  {
    if ctors == [] || Exposes(Output(ctors, next, 0)) then 0
    else
      OutputsOfTail(ctors, next);
      Outermost(ctors[1..], next) + 1
  }

  lemma OutputsOfTail(ctors: seq<Constructor>, next: RT)
    requires ctors != []
    ensures forall i | 0 < i < |ctors| :: Output(ctors, next, i) == Output(ctors[1..], next, i - 1)
  {
    forall i | 0 < i < |ctors|
      ensures Output(ctors, next, i) == Output(ctors[1..], next, i - 1)
    {
      assert ctors[1..][i - 1 + 1..] == ctors[i + 1..];
    }
  }

  /**
   The chain exposes CloseIdleConnections iff next or some constructor's output does; calling
   it runs the outermost such output's, else next's.  RoundTrip is that of the outermost
   constructor's output.
   */
  lemma {:induction false} CloseIsOutermost(ctors: seq<Constructor>, next: RT)
    ensures var rt, k := Fold(ctors, next), Outermost(ctors, next);
            && Exposes(rt) == (k < |ctors| || Exposes(next))
            && (Exposes(rt) ==> Close(rt) == Close(if k < |ctors| then Output(ctors, next, k) else next))
            && Trip(rt) == Trip(if ctors == [] then next else Output(ctors, next, 0))
  {
    if ctors != [] {
      PreserveMeans(Fold(ctors[1..], next), ctors[0](Fold(ctors[1..], next)));
      CloseIsOutermost(ctors[1..], next);
      OutputsOfTail(ctors, next);
    }
  }

  // ---------------------------------------------------------------- the shortcut, and preservation at all

  /** A constructor that treats alike what cannot be told apart. */
  ghost predicate Respectful(c: Constructor) {
    forall a: RT, b: RT {:trigger c(a), c(b)} :: Same(a, b) ==> Same(c(a), c(b))
  }

  function Nested(ctors: seq<Constructor>, next: RT): RT {
    if ctors == [] then next
    else
      var rest := Nested(ctors[1..], next);
      Nest(rest, ctors[0](rest))
  }

  /** Over a whole chain, the shortcut cannot be observed. */
  lemma {:induction false} ShortcutUnobservable(ctors: seq<Constructor>, next: RT)
    requires forall i | 0 <= i < |ctors| :: Respectful(ctors[i])
    ensures Same(Fold(ctors, next), Nested(ctors, next))
  {
    if ctors != [] {
      ShortcutUnobservable(ctors[1..], next);
      var a, b := Fold(ctors[1..], next), Nested(ctors[1..], next);
      assert Same(ctors[0](a), ctors[0](b));
      PreserveMeans(a, ctors[0](a));
    }
  }

  /** A constructor whose RoundTrip depends on its argument's RoundTrip only. */
  ghost predicate TripsOnly(c: Constructor) {
    forall a: RT, b: RT {:trigger c(a), c(b)} :: Trip(a) == Trip(b) ==> Trip(c(a)) == Trip(c(b))
  }

  /** Plain middleware, which loses CloseIdleConnections. */
  function Plain(ctors: seq<Constructor>, next: RT): RT {
    if ctors == [] then next else ctors[0](Plain(ctors[1..], next))
  }

  /** Preserving CloseIdleConnections does not change what RoundTrip does. */
  lemma {:induction false} TripUnchanged(ctors: seq<Constructor>, next: RT)
    requires forall i | 0 <= i < |ctors| :: TripsOnly(ctors[i])
    ensures Trip(Fold(ctors, next)) == Trip(Plain(ctors, next))
  {
    if ctors != [] {
      TripUnchanged(ctors[1..], next);
      var a, b := Fold(ctors[1..], next), Plain(ctors[1..], next);
      assert Trip(ctors[0](a)) == Trip(ctors[0](b));
      PreserveMeans(a, ctors[0](a));
    }
  }

  /** The number of Decorators that CloseIdleConnections passes through. */
  function Hops(rt: RT): nat {
    if rt.Decorator? then 1 + (if rt.closer.Of? then Hops(rt.closer.rt) else 0) else 0
  }

  /** With the shortcut, a chain adds at most one hop to what it is given. */
  lemma {:induction false} ShortcutKeepsFlat(ctors: seq<Constructor>, next: RT, n: nat)
    requires Hops(next) <= n && n > 0
    requires forall i | 0 <= i < |ctors| :: Hops(Output(ctors, next, i)) <= n
    ensures Hops(Fold(ctors, next)) <= n
  {
    if ctors != [] {
      OutputsOfTail(ctors, next);
      forall i | 0 <= i < |ctors[1..]|
        ensures Hops(Output(ctors[1..], next, i)) <= n
      {
        assert Output(ctors[1..], next, i) == Output(ctors, next, i + 1);
      }
      ShortcutKeepsFlat(ctors[1..], next, n);
      assert Hops(Output(ctors, next, 0)) <= n;
    }
  }

  // ---------------------------------------------------------------- composition

  lemma {:induction false} FoldConcat(a: seq<Constructor>, b: seq<Constructor>, next: RT)
    ensures Fold(a + b, next) == Fold(a, Fold(b, next))
  {
    if a == [] {
      assert a + b == b;
    } else {
      assert (a + b)[1..] == a[1..] + b;
      FoldConcat(a[1..], b, next);
    }
  }

  /** The law of composition for one outer chain. */
  ghost predicate Composes(transport: RT, outer: seq<Constructor>, inner: seq<Constructor>, next: RT) {
    ThenOf(transport, outer + inner, next) == ThenOf(transport, outer, ThenOf(transport, inner, next))
  }

  /**
   Then of an appended chain is the composition of the two Thens, whatever is prepended, if
   and only if the inner Then does not give nil: a nil in the middle is replaced by the
   default transport in the composition, but not within one chain.
   */
  lemma ThenComposes(transport: RT, inner: seq<Constructor>, next: RT)
    requires transport != Nil
    ensures (forall outer :: Composes(transport, outer, inner, next)) <==> ThenOf(transport, inner, next) != Nil
  {
    var start := if next == Nil then transport else next;
    if ThenOf(transport, inner, next) != Nil {
      forall outer
        ensures Composes(transport, outer, inner, next)
      {
        FoldConcat(outer, inner, start);
      }
    } else {
      FoldConcat([], inner, start);
      assert !Composes(transport, [], inner, next);
    }
  }

  /** The inner Then gives nil only if its first constructor does, with nothing to close beneath it. */
  lemma NilIff(transport: RT, ctors: seq<Constructor>, next: RT)
    requires transport != Nil
    ensures var start := if next == Nil then transport else next;
            ThenOf(transport, ctors, next) == Nil <==>
            ctors != [] && Output(ctors, start, 0) == Nil && !Exposes(Input(ctors, start, 0))
  {
    var start := if next == Nil then transport else next;
    if ctors != [] {
      PreserveMeans(Input(ctors, start, 0), Output(ctors, start, 0));
    }
  }

  // ---------------------------------------------------------------- chains

  /** An immutable chain: a private array, nil when empty. */
  datatype Chain = Chain(c: array?<Constructor>) {
    ghost function Ctors(): seq<Constructor>
      reads if c == null then {} else {c}
    {
      if c == null then [] else c[..]
    }
  }

  /** Copies its arguments, so that the caller's slice may be changed afterwards. */
  method NewChain(ctors: array<Constructor>) returns (chain: Chain)
    ensures chain.Ctors() == ctors[..]
    ensures chain.c != null ==> fresh(chain.c)
  {
    chain := Chain(null);
    if ctors.Length > 0 {
      var c := new Constructor[ctors.Length](i requires 0 <= i < ctors.Length reads ctors => ctors[i]);
      assert c[..] == ctors[..];
      chain := Chain(c);
    }
  }

  /** The chain itself if there is nothing to append; otherwise a chain that shares no array with it. */
  method Append(chain: Chain, more: array?<Constructor>) returns (longer: Chain)
    ensures longer.Ctors() == chain.Ctors() + (if more == null then [] else more[..])
    ensures if more == null || more.Length == 0 then longer == chain else longer.c != null && fresh(longer.c)
  {
    longer := chain;
    if more != null && more.Length > 0 {
      var n := if chain.c == null then 0 else chain.c.Length;
      var c := new Constructor[n + more.Length](
        i requires 0 <= i < n + more.Length && (chain.c == null ==> n == 0) && (chain.c != null ==> n == chain.c.Length)
          reads more, if chain.c == null then {} else {chain.c}
          => if i < n then chain.c[i] else more[i - n]);
      assert c[..] == chain.Ctors() + more[..];
      longer := Chain(c);
    }
  }

  method Extend(chain: Chain, more: Chain) returns (longer: Chain)
    ensures longer.Ctors() == chain.Ctors() + more.Ctors()
  {
    longer := Append(chain, more.c);
  }

  /** Apply the constructors in reverse. */
  method Then(transport: RT, chain: Chain, next: RT) returns (rt: RT)
    ensures rt == ThenOf(transport, chain.Ctors(), next)
  {
    rt := if next == Nil then transport else next;
    if chain.c != null {
      ghost var start, ctors := rt, chain.c[..];
      for i := chain.c.Length downto 0
        invariant rt == Fold(ctors[i..], start)
      {
        assert ctors[i..][1..] == ctors[i + 1..];
        rt := PreserveCloseIdler(rt, chain.c[i](rt));
      }
      assert ctors[0..] == ctors;
    }
  }
}

/**
 The retrying client: one call of Do, over an environment that may do anything it is allowed
 to.  The decorated client, the check, GetBody, the timers, the select and the context belong
 to the environment, whose methods are nondeterministic and put every call made on them into
 its trace; the client under proof only calls them.  What Do promises is said of that trace,
 and of the bodies and timers in it.

 Each attempt returns a new response object with a new body (or none), possibly with an
 error as well.  The context, once done, stays done.
 */
module RetryClient {
  import opened Options
  import opened Sequences
  import Intervals

  datatype Error = ContextError | GetBodyError(cause: nat) | TransportError(code: nat)

  class Body {
    var drained: bool
    var closes: nat

    constructor ()
      ensures !drained && closes == 0
    {
      drained, closes := false, 0;
    }
  }

  class Response {
    var body: Body?

    constructor (body: Body?)
      ensures this.body == body
    {
      this.body := body;
    }
  }

  class Request {
    var body: Body?
    /** Whether GetBody is set. */
    const hasGetBody: bool
  }

  /** A timer: `fired` once its channel has been received from, `stopped` once it has been stopped. */
  class Timer {
    const wait: int
    var fired: bool
    var stopped: bool

    constructor (wait: int)
      ensures this.wait == wait && !fired && !stopped
    {
      this.wait, fired, stopped := wait, false, false;
    }
  }

  // ---------------------------------------------------------------- the environment

  /** What the decorated client can see on one attempt: the retry state and the request body. */
  datatype Seen = Seen(attempt: int, retries: int, previous: Response?, previousErr: Option<Error>,
                       previousBody: Body?, sent: Body?)

  /** What one attempt returned, and whether the context was done when it did. */
  datatype Got = Got(response: Response?, err: Option<Error>, body: Body?, done: bool)

  /** A call on the environment; `late` is whether the context was done when the select began. */
  datatype Event =
    | Attempted(s: Seen, g: Got)
    | Checked(response: Response?, err: Option<Error>, retry: bool)
    | Started(timer: Timer)
    | Selected(late: bool, timerFired: bool)
    | StoppedTimer(timer: Timer)
    | Drained(body: Body)
    | Closed(body: Body)
    | NewBody(body: Body)
    | NoBody(cause: nat)

  ghost function BodyOf(r: Response?): Body?
    reads r
  {
    if r == null then null else r.body
  }

  ghost function See(state: State, request: Request): Seen
    reads state, state.previous, request
  {
    Seen(state.attempt, state.retries, state.previous, state.previousErr, BodyOf(state.previous), request.body)
  }

  ghost predicate Disposed(b: Body?)
    reads b
  {
    b != null ==> b.drained && b.closes == 1
  }

  ghost predicate Untouched(b: Body?)
    reads b
  {
    b != null ==> !b.drained && b.closes == 0
  }

  /** The calls that dispose of a body, if there is one. */
  ghost function Releases(b: Body?): seq<Event> {
    if b == null then [] else [Drained(b), Closed(b)]
  }

  class Environment {
    /** Whether the context is done. */
    var done: bool
    ghost var trace: seq<Event>

    /** Time passes; the context may become done. */
    method Elapse()
      modifies this`done
      ensures old(done) ==> done
    {
      if * {
        done := true;
      }
    }

    /** One attempt by the decorated client. */
    method Next(state: State, request: Request) returns (r: Response?, err: Option<Error>)
      modifies this
      ensures old(done) ==> done
      ensures r != null ==> fresh(r) && Untouched(r.body) && (r.body != null ==> fresh(r.body))
      ensures trace == old(trace) + [Attempted(See(state, request), Got(r, err, BodyOf(r), done))]
    {
      Elapse();
      err := *;
      r := null;
      if * {
        var body: Body? := null;
        if * {
          body := new Body();
        }
        r := new Response(body);
      }
      trace := trace + [Attempted(See(state, request), Got(r, err, BodyOf(r), done))];
    }

    /** The configured check: any verdict at all. */
    method Check(r: Response?, err: Option<Error>) returns (retry: bool)
      modifies this
      ensures old(done) ==> done
      ensures trace == old(trace) + [Checked(r, err, retry)]
    {
      Elapse();
      retry := *;
      trace := trace + [Checked(r, err, retry)];
    }

    method NewTimer(wait: int) returns (timer: Timer)
      modifies this
      ensures old(done) ==> done
      ensures fresh(timer) && timer.wait == wait && !timer.fired && !timer.stopped
      ensures trace == old(trace) + [Started(timer)]
    {
      timer := new Timer(wait);
      Elapse();
      trace := trace + [Started(timer)];
    }

    /** Wait for the timer or the context, whichever; if both are ready, either may be chosen. */
    method Select(timer: Timer) returns (fired: bool)
      modifies this, timer`fired
      ensures old(done) ==> done
      ensures !fired ==> done
      ensures timer.fired == (old(timer.fired) || fired)
      ensures trace == old(trace) + [Selected(old(done), fired)]
    {
      Elapse();
      fired := *;
      if !done {
        fired := true;
      }
      if fired {
        timer.fired := true;
      }
      trace := trace + [Selected(old(done), fired)];
    }

    method Stop(timer: Timer)
      modifies this`trace, timer`stopped
      ensures timer.stopped
      ensures trace == old(trace) + [StoppedTimer(timer)]
    {
      timer.stopped := true;
      trace := trace + [StoppedTimer(timer)];
    }

    /** Read a response body to its end. */
    method Drain(body: Body)
      modifies this`trace, body`drained
      ensures body.drained && trace == old(trace) + [Drained(body)]
    {
      body.drained := true;
      trace := trace + [Drained(body)];
    }

    method Close(body: Body)
      modifies this`trace, body`closes
      ensures body.closes == old(body.closes) + 1 && trace == old(trace) + [Closed(body)]
    {
      body.closes := body.closes + 1;
      trace := trace + [Closed(body)];
    }

    /** Request.GetBody: a new body, or an error. */
    method GetBody() returns (body: Body, err: Option<nat>)
      modifies this
      ensures old(done) ==> done
      ensures fresh(body)
      ensures trace == old(trace) + [match err case None => NewBody(body) case Some(cause) => NoBody(cause)]
    {
      Elapse();
      body := new Body();
      err := *;
      trace := trace + [match err case None => NewBody(body) case Some(cause) => NoBody(cause)];
    }
  }

  // ---------------------------------------------------------------- httpaux.Cleanup and State

  /** Drain and close the body, if there is one; the Body field stays. */
  method Cleanup(env: Environment, r: Response?)
    modifies env`trace, if r == null then {} else {r.body}
    ensures env.trace == old(env.trace) + Releases(old(BodyOf(r)))
    ensures r != null && r.body != null ==> r.body.drained && r.body.closes == old(r.body.closes) + 1
  {
    if r != null && r.body != null {
      env.Drain(r.body);
      env.Close(r.body);
    }
  }

  class State {
    var attempt: int
    const retries: int
    var previous: Response?
    var previousErr: Option<Error>

    constructor (retries: int)
      ensures attempt == 0 && this.retries == retries && previous == null && previousErr == None
    {
      this.retries := retries;
      attempt, previous, previousErr := 0, null, None;
    }

    /** Dispose of the body of the previous response and remember the rest of it. */
    method PrepareNext(env: Environment, r: Response?, err: Option<Error>)
      modifies env`trace, this, r, if r == null then {} else {r.body}
      ensures env.trace == old(env.trace) + Releases(old(BodyOf(r)))
      ensures attempt == old(attempt) + 1 && previous == r && previousErr == err
      ensures r != null ==> r.body == null
      ensures r != null && old(r.body) != null ==>
                old(r.body).drained && old(r.body).closes == old(r.body.closes) + 1
    {
      attempt := attempt + 1;
      Cleanup(env, r);
      if r != null {
        r.body := null;
      }
      previous, previousErr := r, err;
    }
  }

  // ---------------------------------------------------------------- runs

  /** One turn of the retry loop: what the wait, GetBody and the attempt gave. */
  datatype Turn =
    | Stopped(released: Body?, late: bool, timer: Timer)
    | Refused(released: Body?, late: bool, timer: Timer, cause: nat)
    | Tried(released: Body?, late: bool, timer: Timer, bodies: seq<Body>, s: Seen, g: Got, again: bool)

  /**
   The calls of one turn, in order: the timer is started, the last body is disposed of, and only then
   the select begins; there is at most one attempt.
   */
  ghost function TurnEvents(t: Turn): seq<Event> {
    [Started(t.timer)] + BeforeAttempt(t) + Attempt(t) + Verdict(t)
  }

  ghost function BeforeAttempt(t: Turn): seq<Event> {
    Releases(t.released) + [Selected(t.late, !t.Stopped?)] + AfterSelect(t)
  }

  ghost function AfterSelect(t: Turn): seq<Event> {
    match t
    case Stopped(_, _, timer) => [StoppedTimer(timer)]
    case Refused(_, _, _, cause) => [NoBody(cause)]
    case Tried(_, _, _, bodies, _, _, _) => NewBodies(bodies)
  }

  ghost function NewBodies(bodies: seq<Body>): seq<Event> {
    if bodies == [] then [] else [NewBody(bodies[0])]
  }

  ghost function Attempt(t: Turn): seq<Event> {
    if t.Tried? then [Attempted(t.s, t.g)] else []
  }

  /** A retry that ends with the context done is not checked; its body is disposed of. */
  ghost function Verdict(t: Turn): seq<Event> {
    if !t.Tried? then [] else if t.g.done then Releases(t.g.body) else [Checked(t.g.response, t.g.err, t.again)]
  }

  /** One call of Do: the initial attempt, its verdict unless there are no retries, and the turns. */
  datatype Run = Run(s: Seen, g: Got, verdict: Option<bool>, turns: seq<Turn>)

  /** Every call on the environment in the run. */
  ghost function Events(run: Run): seq<Event> {
    Initial(run) + Later(run.turns)
  }

  ghost function Initial(run: Run): seq<Event> {
    [Attempted(run.s, run.g)]
    + if run.verdict == None then [] else [Checked(run.g.response, run.g.err, run.verdict.value)]
  }

  ghost function Later(turns: seq<Turn>): seq<Event> {
    if turns == [] then []
    else
      var n := |turns| - 1;
      Later(turns[..n]) + TurnEvents(turns[n])
  }

  /** The results of all attempts, in order. */
  ghost function Gots(first: Got, turns: seq<Turn>): seq<Got>
  {
    [first] + Retried(turns)
  }

  ghost function Retried(turns: seq<Turn>): seq<Got>
  {
    if turns == [] then []
    else
      var n := |turns| - 1;
      Retried(turns[..n]) + if turns[n].Tried? then [turns[n].g] else []
  }

  lemma {:induction false} GotsBounded(first: Got, turns: seq<Turn>)
    ensures 1 <= |Gots(first, turns)| <= 1 + |turns|
  {
    if turns != [] {
      GotsBounded(first, turns[..|turns| - 1]);
    }
  }

  /** The attempts in a trace. */
  ghost function AttemptsIn(trace: seq<Event>): seq<Got> {
    if trace == [] then []
    else
      var n := |trace| - 1;
      AttemptsIn(trace[..n]) + if trace[n].Attempted? then [trace[n].g] else []
  }

  /** The timers in a trace. */
  ghost function TimersIn(trace: seq<Event>): seq<Timer> {
    if trace == [] then []
    else
      var n := |trace| - 1;
      TimersIn(trace[..n]) + if trace[n].Started? then [trace[n].timer] else []
  }

  /** The timers of the turns. */
  ghost function TimersOf(turns: seq<Turn>): seq<Timer> {
    if turns == [] then []
    else
      var n := |turns| - 1;
      TimersOf(turns[..n]) + [turns[n].timer]
  }

  /** The bodies closed in a trace. */
  ghost function ClosesIn(trace: seq<Event>): seq<Body> {
    if trace == [] then []
    else
      var n := |trace| - 1;
      ClosesIn(trace[..n]) + if trace[n].Closed? then [trace[n].body] else []
  }

  ghost function OneBody(b: Body?): seq<Body> {
    if b == null then [] else [b]
  }

  /** The bodies that these attempts returned. */
  ghost function BodiesOf(got: seq<Got>): seq<Body> {
    if got == [] then []
    else
      var n := |got| - 1;
      BodiesOf(got[..n]) + OneBody(got[n].body)
  }

  lemma OneTurnMore(run: Run, t: Turn)
    ensures var after := run.(turns := run.turns + [t]);
            && Events(after) == Events(run) + TurnEvents(t)
            && Gots(run.g, after.turns) == (if t.Tried? then Gots(run.g, run.turns) + [t.g] else Gots(run.g, run.turns))
  {
    hide TurnEvents;
    assert (run.turns + [t])[..|run.turns|] == run.turns;
    Associative(Initial(run), Later(run.turns), TurnEvents(t));
    Associative([run.g], Retried(run.turns), if t.Tried? then [t.g] else []);
  }

  /** The calls of a turn after those of `before`, one after the other. */
  lemma TraceOfTurn(before: seq<Event>, t: Turn)
    ensures var selected := before + [Started(t.timer)] + Releases(t.released) + [Selected(t.late, !t.Stopped?)];
            before + TurnEvents(t) == selected + AfterSelect(t) + Attempt(t) + Verdict(t)
  {
    hide Releases, AfterSelect, Attempt, Verdict;
  }

  lemma {:induction false} AttemptsConcat(a: seq<Event>, b: seq<Event>)
    ensures AttemptsIn(a + b) == AttemptsIn(a) + AttemptsIn(b)
  {
    if b == [] {
      assert a + b == a;
    } else {
      var n := |b| - 1;
      assert (a + b)[..|a| + n] == a + b[..n] && (a + b)[|a| + n] == b[n];
      AttemptsConcat(a, b[..n]);
      Associative(AttemptsIn(a), AttemptsIn(b[..n]), if b[n].Attempted? then [b[n].g] else []);
    }
  }

  lemma {:induction false} TimersConcat(a: seq<Event>, b: seq<Event>)
    ensures TimersIn(a + b) == TimersIn(a) + TimersIn(b)
  {
    if b == [] {
      assert a + b == a;
    } else {
      var n := |b| - 1;
      assert (a + b)[..|a| + n] == a + b[..n] && (a + b)[|a| + n] == b[n];
      TimersConcat(a, b[..n]);
      Associative(TimersIn(a), TimersIn(b[..n]), if b[n].Started? then [b[n].timer] else []);
    }
  }

  lemma {:induction false} ClosesConcat(a: seq<Event>, b: seq<Event>)
    ensures ClosesIn(a + b) == ClosesIn(a) + ClosesIn(b)
  {
    if b == [] {
      assert a + b == a;
    } else {
      var n := |b| - 1;
      assert (a + b)[..|a| + n] == a + b[..n] && (a + b)[|a| + n] == b[n];
      ClosesConcat(a, b[..n]);
      Associative(ClosesIn(a), ClosesIn(b[..n]), if b[n].Closed? then [b[n].body] else []);
    }
  }

  lemma {:induction false} NoCloses(trace: seq<Event>)
    requires forall k | 0 <= k < |trace| :: !trace[k].Closed?
    ensures ClosesIn(trace) == []
  {
    if trace != [] {
      NoCloses(trace[..|trace| - 1]);
    }
  }

  lemma ReleasesClose(b: Body?)
    ensures ClosesIn(Releases(b)) == OneBody(b)
  {
    if b != null {
      assert Releases(b) == [Drained(b)] + [Closed(b)];
      ClosesConcat([Drained(b)], [Closed(b)]);
      NoCloses([Drained(b)]);
      assert [Closed(b)][..0] == [];
    }
  }

  lemma OneEvent(e: Event)
    ensures AttemptsIn([e]) == if e.Attempted? then [e.g] else []
    ensures TimersIn([e]) == if e.Started? then [e.timer] else []
  {
    assert [e][..0] == [];
  }

  lemma {:induction false} Quiet(trace: seq<Event>)
    requires forall k | 0 <= k < |trace| :: !trace[k].Attempted? && !trace[k].Started?
    ensures AttemptsIn(trace) == [] && TimersIn(trace) == []
  {
    if trace != [] {
      Quiet(trace[..|trace| - 1]);
    }
  }

  lemma TurnIs(t: Turn)
    ensures TurnEvents(t) == [Started(t.timer)] + BeforeAttempt(t) + Attempt(t) + Verdict(t)
  {
  }

  lemma PiecesOfTurn(t: Turn)
    ensures AttemptsIn([Started(t.timer)]) == [] && TimersIn([Started(t.timer)]) == [t.timer]
    ensures AttemptsIn(BeforeAttempt(t)) == [] && TimersIn(BeforeAttempt(t)) == []
    ensures AttemptsIn(Attempt(t)) == (if t.Tried? then [t.g] else []) && TimersIn(Attempt(t)) == []
    ensures AttemptsIn(Verdict(t)) == [] && TimersIn(Verdict(t)) == []
  {
    OneEvent(Started(t.timer));
    Quiet(BeforeAttempt(t));
    Quiet(Verdict(t));
    if t.Tried? {
      OneEvent(Attempted(t.s, t.g));
    }
  }

  lemma TurnParts(t: Turn)
    ensures AttemptsIn(TurnEvents(t)) == if t.Tried? then [t.g] else []
    ensures TimersIn(TurnEvents(t)) == [t.timer]
  {
    hide *;
    var start, before := [Started(t.timer)], BeforeAttempt(t);
    PartsOf(start + before + Attempt(t), Verdict(t));
    PartsOf(start + before, Attempt(t));
    PartsOf(start, before);
    PiecesOfTurn(t);
    assert TurnEvents(t) == start + before + Attempt(t) + Verdict(t) by { TurnIs(t); }
    assert AttemptsIn(start + before) == [] && TimersIn(start + before) == [t.timer];
  }

  lemma PartsOf(a: seq<Event>, b: seq<Event>)
    ensures AttemptsIn(a + b) == AttemptsIn(a) + AttemptsIn(b) && TimersIn(a + b) == TimersIn(a) + TimersIn(b)
  {
    AttemptsConcat(a, b);
    TimersConcat(a, b);
  }

  lemma VerdictCloses(t: Turn)
    ensures ClosesIn(Verdict(t)) == if t.Tried? && t.g.done then OneBody(t.g.body) else []
  {
    if t.Tried? && t.g.done {
      ReleasesClose(t.g.body);
    } else {
      NoCloses(Verdict(t));
    }
  }

  lemma BeforeCloses(t: Turn)
    ensures ClosesIn(BeforeAttempt(t)) == OneBody(t.released)
  {
    hide ClosesIn;
    var select := [Selected(t.late, !t.Stopped?)];
    ClosesConcat(Releases(t.released) + select, AfterSelect(t));
    ClosesConcat(Releases(t.released), select);
    ReleasesClose(t.released);
    NoCloses(select);
    NoCloses(AfterSelect(t));
  }

  lemma TurnCloses(t: Turn)
    ensures ClosesIn(TurnEvents(t)) == OneBody(t.released) + if t.Tried? && t.g.done then OneBody(t.g.body) else []
  {
    hide ClosesIn, BeforeAttempt, Verdict;
    var start := [Started(t.timer)];
    ClosesConcat(start + BeforeAttempt(t) + Attempt(t), Verdict(t));
    ClosesConcat(start + BeforeAttempt(t), Attempt(t));
    ClosesConcat(start, BeforeAttempt(t));
    NoCloses(start);
    NoCloses(Attempt(t));
    BeforeCloses(t);
    VerdictCloses(t);
    assert ClosesIn(start + BeforeAttempt(t)) == OneBody(t.released);
  }

  lemma InitialParts(run: Run)
    ensures AttemptsIn(Initial(run)) == [run.g] && TimersIn(Initial(run)) == []
  {
    var verdict := if run.verdict == None then [] else [Checked(run.g.response, run.g.err, run.verdict.value)];
    PartsOf([Attempted(run.s, run.g)], verdict);
    OneEvent(Attempted(run.s, run.g));
    Quiet(verdict);
  }

  lemma {:induction false} LaterParts(turns: seq<Turn>)
    ensures AttemptsIn(Later(turns)) == Retried(turns) && TimersIn(Later(turns)) == TimersOf(turns)
  {
    if turns != [] {
      var n := |turns| - 1;
      LaterParts(turns[..n]);
      PartsOf(Later(turns[..n]), TurnEvents(turns[n]));
      TurnParts(turns[n]);
    }
  }

  /** The attempts and the timers of a run are exactly those in its trace. */
  lemma RunParts(run: Run)
    ensures AttemptsIn(Events(run)) == Gots(run.g, run.turns)
    ensures TimersIn(Events(run)) == TimersOf(run.turns)
  {
    PartsOf(Initial(run), Later(run.turns));
    InitialParts(run);
    LaterParts(run.turns);
  }

  // ---------------------------------------------------------------- what Do promises of a run

  /** The loop goes on after the turn. */
  ghost predicate Continues(t: Turn) {
    t.Tried? && !t.g.done && t.again
  }

  /** What Do returns if it ends with this turn. */
  ghost function Answer(t: Turn): Response? {
    if t.Tried? && !t.g.done then t.g.response else null
  }

  ghost function Failure(t: Turn): Option<Error> {
    match t
    case Stopped(_, _, _) => Some(ContextError)
    case Refused(_, _, _, cause) => Some(GetBodyError(cause))
    case Tried(_, _, _, _, _, g, _) => if g.done then Some(ContextError) else g.err
  }

  /** The turn leaves with the context error. */
  ghost predicate Cancelled(t: Turn) {
    t.Stopped? || (t.Tried? && t.g.done)
  }

  /** The timer of the turn has fired, or has been stopped when the context was chosen. */
  ghost predicate TimerDone(t: Turn)
    reads t.timer
  {
    t.timer.fired == !t.Stopped? && t.timer.stopped == t.Stopped?
  }

  ghost predicate TimersDone(turns: seq<Turn>)
    reads set t | t in turns :: t.timer
  {
    forall i | 0 <= i < |turns| :: TimerDone(turns[i])
  }

  /** The result before turn `i`. */
  ghost function Before(first: Got, turns: seq<Turn>, i: nat): Got
    requires i <= |turns|
  {
    if i == 0 || !turns[i - 1].Tried? then first else turns[i - 1].g
  }

  /** Two attempts share neither response nor body. */
  ghost predicate Apart(a: Got, b: Got) {
    (a.response != null ==> a.response != b.response) && (a.body != null ==> a.body != b.body)
  }

  ghost predicate Distinct(got: seq<Got>) {
    forall j, k {:trigger Apart(got[j], got[k])} | 0 <= j < k < |got| :: Apart(got[j], got[k])
  }

  /** The bodies of the first `n` attempts have been drained and closed exactly once. */
  ghost predicate DisposedBefore(got: seq<Got>, n: nat)
    reads set g | g in got :: g.body
  {
    n <= |got| && forall k | 0 <= k < n :: Disposed(got[k].body)
  }

  /** `response` is what the last attempt returned, its body not read and not closed. */
  ghost predicate Live(got: seq<Got>, response: Response?)
    reads response, set g | g in got :: g.body
  {
    && |got| > 0 && response == got[|got| - 1].response
    && got[|got| - 1].body == BodyOf(response)
    && Untouched(got[|got| - 1].body)
  }

  /** At an exit: a returned response is live, and every other response has been disposed of. */
  ghost predicate Settled(got: seq<Got>, response: Response?)
    reads response, set g | g in got :: g.body
  {
    && |got| > 0 && DisposedBefore(got, |got| - 1)
    && if response == null then Disposed(got[|got| - 1].body) else Live(got, response)
  }

  /** Between turns: the last result is at hand, and all bodies before it are disposed of. */
  ghost predicate Here(run: Run, response: Response?, err: Option<Error>)
    reads response, set g | g in Gots(run.g, run.turns) :: g.body
  {
    var got := Gots(run.g, run.turns);
    Live(got, response) && DisposedBefore(got, |got| - 1) && err == got[|got| - 1].err
  }

  lemma TurnSettles(run: Run, t: Turn)
    requires var got := Gots(run.g, run.turns); DisposedBefore(got, |got|)
    requires t.Tried? ==> if t.g.done then Disposed(t.g.body) else Live([t.g], Answer(t))
    ensures var after := run.(turns := run.turns + [t]);
            && Settled(Gots(run.g, after.turns), Answer(t))
            && (Continues(t) ==> Here(after, Answer(t), Failure(t)))
  {
    hide Events, TurnEvents;
    OneTurnMore(run, t);
    GotSettles(Gots(run.g, run.turns), t);
  }

  lemma GotSettles(got: seq<Got>, t: Turn)
    requires |got| > 0 && DisposedBefore(got, |got|)
    requires t.Tried? ==> if t.g.done then Disposed(t.g.body) else Live([t.g], Answer(t))
    ensures var after := if t.Tried? then got + [t.g] else got;
            && Settled(after, Answer(t))
            && (Continues(t) ==> Live(after, Answer(t)) && DisposedBefore(after, |got|))
  {
  }

  /** After the initial attempt. */
  lemma InitialSettles(run: Run, response: Response?)
    requires run.turns == [] && run.g.response == response && run.g.body == BodyOf(response) && Untouched(run.g.body)
    ensures var got := Gots(run.g, run.turns);
            Distinct(got) && Here(run, response, run.g.err) && Settled(got, response)
    ensures TimersDone(run.turns) && Events(run) == Initial(run)
  {
  }

  lemma HereSettles(run: Run, response: Response?, err: Option<Error>)
    requires Here(run, response, err)
    ensures Settled(Gots(run.g, run.turns), response)
  {
  }

  lemma TimersDoneMore(turns: seq<Turn>, t: Turn)
    requires TimersDone(turns) && TimerDone(t)
    ensures TimersDone(turns + [t])
  {
  }

  lemma DistinctMore(got: seq<Got>, g: Got)
    requires Distinct(got) && forall k | 0 <= k < |got| :: Apart(got[k], g)
    ensures Distinct(got + [g])
  {
    var more := got + [g];
    forall j, k | 0 <= j < k < |more|
      ensures Apart(more[j], more[k])
    {
      assert k < |got| ==> Apart(got[j], got[k]);
    }
  }

  // ---------------------------------------------------------------- every body is closed once

  /** Each turn disposes of the body of the result before it, and all but the last go on. */
  ghost predicate Linked(first: Got, turns: seq<Turn>) {
    && (forall i: nat | i < |turns| :: turns[i].released == Before(first, turns, i).body)
    && forall i | 0 <= i < |turns| - 1 :: Continues(turns[i])
  }

  /** The last result is still at hand. */
  ghost predicate AtHand(turns: seq<Turn>) {
    turns == [] || (turns[|turns| - 1].Tried? && !turns[|turns| - 1].g.done)
  }

  lemma LinkedFront(first: Got, turns: seq<Turn>)
    requires Linked(first, turns) && turns != []
    ensures var n := |turns| - 1;
            && Linked(first, turns[..n]) && AtHand(turns[..n])
            && turns[n].released == Before(first, turns[..n], n).body
  {
    var n := |turns| - 1;
    forall i: nat | i < n
      ensures turns[..n][i].released == Before(first, turns[..n], i).body
    {
      assert turns[i].released == Before(first, turns, i).body;
    }
  }

  lemma {:induction false} LastGot(first: Got, turns: seq<Turn>)
    requires Linked(first, turns) && AtHand(turns)
    ensures var got := Gots(first, turns); got[|got| - 1] == Before(first, turns, |turns|)
  {
  }

  /** The bodies closed so far, with the one at hand if there is one, are all there have been. */
  lemma {:induction false} ClosedSoFar(first: Got, turns: seq<Turn>)
    requires Linked(first, turns)
    ensures var closed := ClosesIn(Later(turns));
            BodiesOf(Gots(first, turns))
            == if AtHand(turns) then closed + OneBody(Before(first, turns, |turns|).body) else closed
    decreases |turns|
  {
    hide ClosesIn, TurnEvents;
    if turns == [] {
      NoCloses([]);
      assert [first][..0] == [];
    } else {
      var n := |turns| - 1;
      var t := turns[n];
      LinkedFront(first, turns);
      ClosedSoFar(first, turns[..n]);
      ClosesConcat(Later(turns[..n]), TurnEvents(t));
      TurnCloses(t);
      BodiesMore(first, turns);
      var closed, own := ClosesIn(Later(turns[..n])), if t.Tried? && t.g.done then OneBody(t.g.body) else [];
      Associative(closed, OneBody(t.released), own);
    }
  }

  lemma BodiesMore(first: Got, turns: seq<Turn>)
    requires turns != []
    ensures var n := |turns| - 1;
            BodiesOf(Gots(first, turns))
            == BodiesOf(Gots(first, turns[..n])) + if turns[n].Tried? then OneBody(turns[n].g.body) else []
  {
    var n := |turns| - 1;
    if turns[n].Tried? {
      var front := Gots(first, turns[..n]);
      Associative([first], Retried(turns[..n]), [turns[n].g]);
      assert Gots(first, turns) == front + [turns[n].g];
      assert (front + [turns[n].g])[..|front|] == front;
    } else {
      assert Retried(turns) == Retried(turns[..n]);
    }
  }

  lemma EventsClose(run: Run)
    ensures ClosesIn(Events(run)) == ClosesIn(Later(run.turns))
  {
    ClosesConcat(Initial(run), Later(run.turns));
    NoCloses(Initial(run));
  }

  lemma ClosedAtLast(first: Got, turns: seq<Turn>)
    requires Linked(first, turns)
    ensures var got, closed := Gots(first, turns), ClosesIn(Later(turns));
            && |got| > 0
            && if AtHand(turns)
               then got[|got| - 1] == Before(first, turns, |turns|) && closed == BodiesOf(got[..|got| - 1])
               else closed == BodiesOf(got)
  {
    hide ClosesIn, Later;
    ClosedSoFar(first, turns);
    if AtHand(turns) {
      LastGot(first, turns);
      var got := Gots(first, turns);
      Cancel(ClosesIn(Later(turns)), BodiesOf(got[..|got| - 1]), OneBody(got[|got| - 1].body));
    }
  }

  lemma Cancel<T>(a: seq<T>, b: seq<T>, c: seq<T>)
    requires a + c == b + c
    ensures a == b
  {
    assert |a| == |b|;
    assert a == (a + c)[..|a|] && b == (b + c)[..|b|];
  }

  // ---------------------------------------------------------------- the client

  class Client {
    const f: Intervals.Float
    const cfg: Intervals.Config
    const intervals: seq<Intervals.Interval>

    ghost predicate Valid() {
      && Intervals.Faithful(f)
      && |intervals| == (if cfg.retries < 1 then 0 else cfg.retries)
      && forall k | 0 <= k < |intervals| :: intervals[k] == Intervals.Planned(f, cfg, k)
    }

    constructor (f: Intervals.Float, cfg: Intervals.Config)
      requires Intervals.Faithful(f)
      ensures Valid() && this.f == f && this.cfg == cfg
    {
      var plan := Intervals.NewIntervals(f, cfg);
      this.f, this.cfg, this.intervals := f, cfg, plan[..];
    }

    /** The wait of timer `i` lies in its window. */
    ghost predicate InWindow(wait: int, i: nat) {
      var b := Intervals.Base(f, cfg, i);
      Intervals.Low(f, cfg, b) <= wait <= Intervals.High(f, cfg, b)
    }

    /**
     A turn after the result `prev`: the wait is in its window, `prev` is disposed of; the attempt sees its
     number and the result before it without a body, and carries the body of this turn's GetBody if there is
     one; a wait entered with the context done leads to no result.
     */
    ghost predicate SoundTurn(prev: Got, i: nat, t: Turn, original: Body?, hasGetBody: bool) {
      && InWindow(t.timer.wait, i) && t.released == prev.body
      && (t.Refused? ==> hasGetBody)
      && (t.Tried? ==>
            && |t.bodies| == (if hasGetBody then 1 else 0)
            && t.s == Seen(i + 1, |intervals|, prev.response, prev.err, null,
                           if hasGetBody then t.bodies[0] else original)
            && (t.late ==> t.g.done))
    }

    /** What holds of every run so far. */
    ghost predicate Recorded(run: Run, original: Body?, hasGetBody: bool) {
      && run.s == Seen(0, |intervals|, null, None, null, original)
      && (run.verdict == None <==> |intervals| == 0)
      && (run.turns != [] ==> run.verdict == Some(true))
      && |run.turns| <= |intervals|
      && (forall i | 0 <= i < |run.turns| - 1 :: Continues(run.turns[i]))
      && (forall i: nat | i < |run.turns| ::
            SoundTurn(Before(run.g, run.turns, i), i, run.turns[i], original, hasGetBody))
      && Distinct(Gots(run.g, run.turns))
    }

    /** The loop goes on after this run. */
    ghost predicate Going(run: Run) {
      run.verdict == Some(true) && forall i | 0 <= i < |run.turns| :: Continues(run.turns[i])
    }

    /** How Do ends: with the last result, the context error, or the failure of GetBody. */
    ghost predicate Ends(run: Run, response: Response?, err: Option<Error>, done: bool) {
      if run.turns == [] then response == run.g.response && err == run.g.err && run.verdict != Some(true)
      else
        var last := run.turns[|run.turns| - 1];
        && response == Answer(last) && err == Failure(last)
        && (Continues(last) ==> |run.turns| == |intervals|)
        && (Cancelled(last) ==> done)
    }

    /** Between 1 and 1+Retries attempts are made, and as many timers started as there are turns. */
    lemma AttemptsBounded(run: Run, original: Body?, hasGetBody: bool)
      requires Recorded(run, original, hasGetBody)
      ensures 1 <= |AttemptsIn(Events(run))| <= 1 + |intervals|
      ensures AttemptsIn(Events(run)) == Gots(run.g, run.turns) && TimersIn(Events(run)) == TimersOf(run.turns)
    {
      RunParts(run);
      GotsBounded(run.g, run.turns);
    }

    /**
     If the context is already done when a wait is entered, at most one more attempt is made, and no
     response is returned, with either the context error or a GetBodyError.
     */
    lemma LateGivesUp(run: Run, original: Body?, hasGetBody: bool, response: Response?, err: Option<Error>, done: bool,
                      i: nat)
      requires Recorded(run, original, hasGetBody) && Ends(run, response, err, done)
      requires i < |run.turns| && run.turns[i].late
      ensures i == |run.turns| - 1
      ensures response == null && err.Some? && (err.value.ContextError? || err.value.GetBodyError?)
    {
      hide InWindow, Distinct, Gots;
      assert SoundTurn(Before(run.g, run.turns, i), i, run.turns[i], original, hasGetBody);
    }

    /**
     The bodies closed in the trace are those of all attempts, in order and each once, but for the last
     attempt's when its response is returned.
     */
    lemma EachClosedOnce(run: Run, original: Body?, hasGetBody: bool, response: Response?, err: Option<Error>,
                         done: bool)
      requires Recorded(run, original, hasGetBody) && Ends(run, response, err, done)
      ensures var got, closed := Gots(run.g, run.turns), ClosesIn(Events(run));
              && Distinct(got) && |got| > 0
              && if AtHand(run.turns)
                 then response == got[|got| - 1].response && closed == BodiesOf(got[..|got| - 1])
                 else response == null && closed == BodiesOf(got)
    {
      hide InWindow, Distinct, Gots, ClosesIn, Later, Initial, BodiesOf, Apart;
      assert Linked(run.g, run.turns) by {
        forall i: nat | i < |run.turns|
          ensures run.turns[i].released == Before(run.g, run.turns, i).body
        {
          assert SoundTurn(Before(run.g, run.turns, i), i, run.turns[i], original, hasGetBody);
        }
      }
      EventsClose(run);
      ClosedAtLast(run.g, run.turns);
    }

    lemma TurnRecorded(run: Run, original: Body?, hasGetBody: bool, t: Turn)
      requires Recorded(run, original, hasGetBody) && Going(run) && |run.turns| < |intervals|
      requires SoundTurn(Before(run.g, run.turns, |run.turns|), |run.turns|, t, original, hasGetBody)
      requires var got := Gots(run.g, run.turns); t.Tried? ==> forall k | 0 <= k < |got| :: Apart(got[k], t.g)
      ensures var after := run.(turns := run.turns + [t]);
              && Recorded(after, original, hasGetBody)
              && (Continues(t) ==> Going(after) && Before(after.g, after.turns, |after.turns|) == t.g)
    {
      hide SoundTurn, Distinct, Gots, Events, TurnEvents;
      var after := run.(turns := run.turns + [t]);
      OneTurnMore(run, t);
      if t.Tried? {
        DistinctMore(Gots(run.g, run.turns), t.g);
      }
      forall i: nat | i < |after.turns|
        ensures SoundTurn(Before(after.g, after.turns, i), i, after.turns[i], original, hasGetBody)
      {
        if i < |run.turns| {
          assert SoundTurn(Before(run.g, run.turns, i), i, run.turns[i], original, hasGetBody);
        }
      }
    }

    /** The initial attempt starts a sound run, or ends Do; without retries it is not checked. */
    lemma InitialRecorded(run: Run, original: Body?, hasGetBody: bool, done: bool)
      requires run.turns == [] && run.s == Seen(0, |intervals|, null, None, null, original)
      requires run.verdict == None <==> |intervals| == 0
      ensures Recorded(run, original, hasGetBody)
      ensures Before(run.g, run.turns, 0) == run.g
      ensures if run.verdict == Some(true) then Going(run) else Ends(run, run.g.response, run.g.err, done)
    {
    }

    /** A turn after which the loop does not go on ends Do. */
    lemma TurnEnds(run: Run, t: Turn, done: bool)
      requires !Continues(t) && (Cancelled(t) ==> done)
      ensures Ends(run.(turns := run.turns + [t]), Answer(t), Failure(t), done)
    {
    }

    /** Without a retry left, the last result is returned. */
    lemma Exhausted(run: Run, response: Response?, err: Option<Error>, done: bool)
      requires Going(run) && |run.turns| == |intervals| > 0
      requires var last := Before(run.g, run.turns, |run.turns|); response == last.response && err == last.err
      ensures Ends(run, response, err, done)
    {
    }

    lemma {:induction false} GotsWhileGoing(run: Run)
      requires Going(run)
      ensures |Gots(run.g, run.turns)| == 1 + |run.turns|
      ensures Gots(run.g, run.turns)[|run.turns|] == Before(run.g, run.turns, |run.turns|)
      decreases |run.turns|
    {
      if run.turns != [] {
        GotsWhileGoing(run.(turns := run.turns[..|run.turns| - 1]));
      }
    }

    lemma RunHere(run: Run, response: Response?, err: Option<Error>, original: Body?, hasGetBody: bool)
      requires Going(run) && Here(run, response, err) && Recorded(run, original, hasGetBody)
      ensures var got, last, n := Gots(run.g, run.turns), Before(run.g, run.turns, |run.turns|), |run.turns|;
              && |got| == n + 1 && Live(got, response) && DisposedBefore(got, n) && Distinct(got) && got[n] == last
              && response == last.response && err == last.err
    {
      hide SoundTurn, Distinct;
      GotsWhileGoing(run);
    }

    /** Start the timer, dispose of the last response, and wait. */
    method Wait(env: Environment, state: State, i: nat, response: Response?, err: Option<Error>, ghost got: seq<Got>)
      returns (timer: Timer, fired: bool, ghost late: bool)
      requires Valid() && i < |intervals|
      requires |got| == i + 1 && Live(got, response) && DisposedBefore(got, i) && Distinct(got)
      modifies env, state, response, got[i].body
      ensures old(env.done) ==> late
      ensures late || !fired ==> env.done
      ensures env.trace == old(env.trace) + [Started(timer)] + Releases(got[i].body) + [Selected(late, fired)]
      ensures fresh(timer) && InWindow(timer.wait, i) && timer.fired == fired && !timer.stopped
      ensures state.attempt == old(state.attempt) + 1 && state.previous == response && state.previousErr == err
      ensures response != null ==> response.body == null
      ensures DisposedBefore(got, i + 1)
    {
      assert forall k | 0 <= k < i :: Apart(got[k], got[i]);
      var wait := Intervals.Duration(f, cfg, i, intervals[i]);
      timer := env.NewTimer(wait);
      state.PrepareNext(env, response, err);
      assert DisposedBefore(got, i + 1);
      late := env.done;
      fired := env.Select(timer);
    }

    /**
     One retry and its judgement, after the wait and the new body, if any.  When the context is
     done by then, its response is disposed of as well.
     */
    method Try(env: Environment, original: Request, state: State, ghost got: seq<Got>)
      returns (again: bool, response: Response?, err: Option<Error>, ghost s: Seen, ghost g: Got)
      requires DisposedBefore(got, |got|)
      modifies env
      ensures old(env.done) ==> g.done
      ensures g.done ==> env.done
      ensures env.trace == old(env.trace) + [Attempted(s, g)]
                           + if g.done then Releases(g.body) else [Checked(g.response, g.err, again)]
      ensures s == See(state, original)
      ensures forall k | 0 <= k < |got| :: Apart(got[k], g)
      ensures if g.done then !again && response == null && err == Some(ContextError)
              else response == g.response && err == g.err
      ensures DisposedBefore(got, |got|)
      ensures if g.done then Disposed(g.body) else Live([g], response)
      ensures response != null ==> fresh(response)
      ensures g.body != null ==> fresh(g.body)
    {
      s := See(state, original);
      response, err := env.Next(state, original);
      g := Got(response, err, BodyOf(response), env.done);
      assert DisposedBefore(got, |got|);
      assert forall k | 0 <= k < |got| :: Apart(got[k], g);
      if env.done {
        Cleanup(env, response);
        return false, null, Some(ContextError), s, g;
      }
      again := env.Check(response, err);
    }

    /** One turn of the retry loop after attempt `i`; `again` when the loop goes on. */
    method Retry(env: Environment, original: Request, state: State, i: nat, response: Response?, err: Option<Error>,
                 ghost got: seq<Got>, ghost body: Body?)
      returns (again: bool, response': Response?, err': Option<Error>, ghost t: Turn)
      requires Valid() && i < |intervals|
      requires state.attempt == i && state.retries == |intervals|
      requires !original.hasGetBody ==> original.body == body
      requires |got| == i + 1 && Live(got, response) && got[i].err == err
      requires DisposedBefore(got, i) && Distinct(got)
      modifies env, original, state, response, got[i].body
      ensures env.trace == old(env.trace) + TurnEvents(t)
      ensures state.attempt == i + 1
      ensures !original.hasGetBody ==> original.body == body
      ensures SoundTurn(got[i], i, t, body, original.hasGetBody)
      ensures old(env.done) ==> t.late
      ensures t.Tried? ==> forall k | 0 <= k < |got| :: Apart(got[k], t.g)
      ensures again == Continues(t) && response' == Answer(t) && err' == Failure(t)
      ensures Cancelled(t) ==> env.done
      ensures fresh(t.timer) && TimerDone(t)
      ensures DisposedBefore(got, i + 1)
      ensures t.Tried? ==> if t.g.done then Disposed(t.g.body) else Live([t.g], response')
      ensures response' != null ==> fresh(response')
      ensures t.Tried? && t.g.body != null ==> fresh(t.g.body)
    {
      hide Distinct, InWindow, TurnEvents;
      ghost var before := env.trace;
      ghost var late;
      var timer, fired;
      timer, fired, late := Wait(env, state, i, response, err, got);
      if !fired {
        env.Stop(timer);
        assert DisposedBefore(got, i + 1);
        t := Stopped(got[i].body, late, timer);
        TraceOfTurn(before, t);
        return false, null, Some(ContextError), t;
      }
      ghost var bodies: seq<Body> := [];
      if original.hasGetBody {
        var refreshed, cause := env.GetBody();
        if cause.Some? {
          assert DisposedBefore(got, i + 1);
          t := Refused(got[i].body, late, timer, cause.value);
          TraceOfTurn(before, t);
          return false, null, Some(GetBodyError(cause.value)), t;
        }
        original.body := refreshed;
        bodies := [refreshed];
      }
      assert DisposedBefore(got, i + 1);
      assert env.trace ==
             before + [Started(timer)] + Releases(got[i].body) + [Selected(late, true)] + NewBodies(bodies);
      ghost var s, g;
      again, response', err', s, g := Try(env, original, state, got);
      t := Tried(got[i].body, late, timer, bodies, s, g, again);
      assert s == Seen(i + 1, |intervals|, response, err, null, original.body);
      TraceOfTurn(before, t);
    }

    method Do(env: Environment, original: Request) returns (response: Response?, err: Option<Error>, ghost run: Run)
      requires Valid()
      modifies env, original
      ensures env.trace == old(env.trace) + Events(run)
      ensures Recorded(run, old(original.body), original.hasGetBody)
      ensures Ends(run, response, err, env.done)
      ensures Settled(Gots(run.g, run.turns), response)
      ensures TimersDone(run.turns)
    {
      hide SoundTurn, Distinct, DisposedBefore, Live, Settled, Cancelled;
      hide TurnEvents, Events, Gots, Recorded, Ends, Going, Before, Here;
      var state := new State(|intervals|);
      ghost var s := See(state, original);
      response, err := env.Next(state, original);
      run := Run(s, Got(response, err, BodyOf(response), env.done), None, []);
      if |intervals| == 0 {
        InitialRecorded(run, old(original.body), original.hasGetBody, env.done);
        InitialSettles(run, response);
        return;
      }
      var retry := env.Check(response, err);
      run := run.(verdict := Some(retry));
      InitialRecorded(run, old(original.body), original.hasGetBody, env.done);
      InitialSettles(run, response);
      if !retry {
        return;
      }
      for i := 0 to |intervals|
        invariant env.trace == old(env.trace) + Events(run)
        invariant Recorded(run, old(original.body), original.hasGetBody) && Going(run) && |run.turns| == i
        invariant !original.hasGetBody ==> original.body == old(original.body)
        invariant fresh(state) && state.attempt == i && state.retries == |intervals|
        invariant Here(run, response, err)
        invariant response != null ==> fresh(response)
        invariant Before(run.g, run.turns, i).body != null ==> fresh(Before(run.g, run.turns, i).body)
        invariant TimersDone(run.turns)
      {
        RunHere(run, response, err, old(original.body), original.hasGetBody);
        ghost var got := Gots(run.g, run.turns);
        ghost var t;
        retry, response, err, t := Retry(env, original, state, i, response, err, got, old(original.body));
        assert TimersDone(run.turns);
        TurnRecorded(run, old(original.body), original.hasGetBody, t);
        OneTurnMore(run, t);
        Associative(old(env.trace), Events(run), TurnEvents(t));
        TurnSettles(run, t);
        TimersDoneMore(run.turns, t);
        if !retry {
          TurnEnds(run, t, env.done);
        }
        run := run.(turns := run.turns + [t]);
        if !retry {
          return;
        }
      }
      RunHere(run, response, err, old(original.body), original.hasGetBody);
      Exhausted(run, response, err, env.done);
      HereSettles(run, response, err);
    }
  }
}

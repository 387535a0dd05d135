/**
 A call of Do as its environment sees it: which call may follow which, what each attempt is shown, how
 the last call decides what Do returns, and how long the waits are.  All of it is said of the trace.
 */
module RetryTrace {
  import opened Options
  import opened RetryClient
  import opened Sequences
  import Intervals

  // ---------------------------------------------------------------- which call follows which

  ghost predicate Follows(a: Event, b: Event, hasGetBody: bool) {
    match a
    case Attempted(_, g) =>
      if b.Checked? then b.response == g.response && b.err == g.err
      else g.done && g.body != null && b == Drained(g.body)
    case Checked(_, _, retry) => retry && b.Started?
    case Started(_) => b.Drained? || b.Selected?
    case Drained(body) => b == Closed(body)
    case Closed(_) => b.Selected?
    case Selected(_, timerFired) =>
      if !timerFired then b.StoppedTimer?
      else if hasGetBody then b.NewBody? || b.NoBody?
      else b.Attempted?
    case NewBody(body) => b.Attempted? && b.s.sent == body
    case StoppedTimer(_) => false
    case NoBody(_) => false
  }

  ghost predicate Adjacent(trace: seq<Event>, hasGetBody: bool) {
    forall i | 0 <= i < |trace| - 1 :: Follows(trace[i], trace[i + 1], hasGetBody)
  }

  /** The last call is a verdict to retry. */
  ghost predicate AsksAgain(trace: seq<Event>) {
    trace != [] && trace[|trace| - 1].Checked? && trace[|trace| - 1].retry
  }

  /** What is the same for all attempts of one call of Do. */
  datatype Setup = Setup(retries: int, original: Body?, hasGetBody: bool)

  /**
   What the attempt is shown: its number, and the last result without its body; it sends the body of the
   request as it was, unless GetBody gave another.
   */
  ghost predicate Sees(s: Seen, before: seq<Got>, setup: Setup) {
    && s.attempt == |before| && s.retries == setup.retries && s.previousBody == null
    && (before == [] || !setup.hasGetBody ==> s.sent == setup.original)
    && s.previous == (if before == [] then null else before[|before| - 1].response)
    && s.previousErr == (if before == [] then None else before[|before| - 1].err)
  }

  ghost predicate Numbered(trace: seq<Event>, setup: Setup) {
    forall i | 0 <= i < |trace| && trace[i].Attempted? :: Sees(trace[i].s, AttemptsIn(trace[..i]), setup)
  }

  lemma AdjacentConcat(a: seq<Event>, b: seq<Event>, hasGetBody: bool)
    requires Adjacent(a, hasGetBody) && Adjacent(b, hasGetBody)
    requires a != [] && b != [] ==> Follows(a[|a| - 1], b[0], hasGetBody)
    ensures Adjacent(a + b, hasGetBody)
  {
    hide Follows;
    var all := a + b;
    forall i | 0 <= i < |all| - 1
      ensures Follows(all[i], all[i + 1], hasGetBody)
    {
      if i + 1 < |a| {
        assert Follows(a[i], a[i + 1], hasGetBody);
      } else if i >= |a| {
        assert Follows(b[i - |a|], b[i - |a| + 1], hasGetBody);
      }
    }
  }

  ghost predicate NoAttempts(trace: seq<Event>) {
    forall i | 0 <= i < |trace| :: !trace[i].Attempted?
  }

  lemma NumberedQuiet(a: seq<Event>, b: seq<Event>, setup: Setup)
    requires Numbered(a, setup) && NoAttempts(b)
    ensures Numbered(a + b, setup)
  {
    hide Sees, AttemptsIn;
    var all := a + b;
    forall i | 0 <= i < |all| && all[i].Attempted?
      ensures Sees(all[i].s, AttemptsIn(all[..i]), setup)
    {
      assert i < |a| && all[..i] == a[..i];
    }
  }

  lemma NumberedMore(a: seq<Event>, e: Event, setup: Setup)
    requires Numbered(a, setup) && e.Attempted? && Sees(e.s, AttemptsIn(a), setup)
    ensures Numbered(a + [e], setup)
  {
    hide Sees, AttemptsIn;
    var all := a + [e];
    forall i | 0 <= i < |all| && all[i].Attempted?
      ensures Sees(all[i].s, AttemptsIn(all[..i]), setup)
    {
      if i < |a| {
        assert all[..i] == a[..i];
      } else {
        assert all[..i] == a;
      }
    }
  }

  // ---------------------------------------------------------------- one turn

  lemma VerdictAdjacent(t: Turn, hasGetBody: bool)
    ensures Adjacent(Attempt(t) + Verdict(t), hasGetBody)
  {
    var all := Attempt(t) + Verdict(t);
    if t.Tried? && !t.g.done {
      assert all == [Attempted(t.s, t.g), Checked(t.g.response, t.g.err, t.again)];
    } else if t.Tried? && t.g.body != null {
      assert all == [Attempted(t.s, t.g), Drained(t.g.body), Closed(t.g.body)];
    }
  }

  lemma WaitAdjacent(t: Turn, hasGetBody: bool)
    ensures Adjacent([Started(t.timer)] + Releases(t.released) + [Selected(t.late, !t.Stopped?)], hasGetBody)
  {
    var all := [Started(t.timer)] + Releases(t.released) + [Selected(t.late, !t.Stopped?)];
    if t.released != null {
      assert all == [Started(t.timer), Drained(t.released), Closed(t.released), Selected(t.late, !t.Stopped?)];
    } else {
      assert all == [Started(t.timer), Selected(t.late, !t.Stopped?)];
    }
  }

  /** A turn as it follows a verdict; after it, the loop goes on only from another one. */
  lemma TurnAdjacent(c: Client, prev: Got, i: nat, t: Turn, original: Body?, hasGetBody: bool)
    requires c.SoundTurn(prev, i, t, original, hasGetBody)
    ensures Adjacent(TurnEvents(t), hasGetBody) && TurnEvents(t)[0].Started?
    ensures Continues(t) ==> AsksAgain(TurnEvents(t))
  {
    var wait := [Started(t.timer)] + Releases(t.released) + [Selected(t.late, !t.Stopped?)];
    var after, rest := AfterSelect(t), Attempt(t) + Verdict(t);
    WaitAdjacent(t, hasGetBody);
    VerdictAdjacent(t, hasGetBody);
    AdjacentConcat(wait, after, hasGetBody);
    AdjacentConcat(wait + after, rest, hasGetBody);
    assert TurnEvents(t) == wait + after + rest;
  }

  // ---------------------------------------------------------------- whole runs

  ghost function Front(run: Run): Run
    requires run.turns != []
  {
    run.(turns := run.turns[..|run.turns| - 1])
  }

  lemma RetriedFront(first: Got, turns: seq<Turn>)
    requires turns != []
    ensures var n := |turns| - 1;
            Gots(first, turns) == Gots(first, turns[..n]) + if turns[n].Tried? then [turns[n].g] else []
  {
    var n := |turns| - 1;
    Associative([first], Retried(turns[..n]), if turns[n].Tried? then [turns[n].g] else []);
  }

  /** All turns but the last, as a run: the loop goes on after it. */
  lemma FrontRecorded(c: Client, run: Run, original: Body?, hasGetBody: bool)
    requires c.Recorded(run, original, hasGetBody) && run.turns != []
    ensures c.Recorded(Front(run), original, hasGetBody) && c.Going(Front(run))
    ensures var n := |run.turns| - 1;
            c.SoundTurn(Before(run.g, run.turns[..n], n), n, run.turns[n], original, hasGetBody)
  {
    hide Client.SoundTurn, Gots;
    var n := |run.turns| - 1;
    forall i: nat | i <= n
      ensures Before(run.g, run.turns[..n], i) == Before(run.g, run.turns, i)
    {
    }
    forall i: nat | i < n
      ensures c.SoundTurn(Before(run.g, run.turns[..n], i), i, run.turns[..n][i], original, hasGetBody)
    {
      assert c.SoundTurn(Before(run.g, run.turns, i), i, run.turns[i], original, hasGetBody);
    }
    RetriedFront(run.g, run.turns);
    DistinctFront(Gots(run.g, run.turns), Gots(run.g, run.turns[..n]));
  }

  lemma DistinctFront(got: seq<Got>, front: seq<Got>)
    requires Distinct(got) && front <= got
    ensures Distinct(front)
  {
    forall j, k | 0 <= j < k < |front|
      ensures Apart(front[j], front[k])
    {
      assert Apart(got[j], got[k]);
    }
  }

  lemma EventsFront(run: Run)
    requires run.turns != []
    ensures Events(run) == Events(Front(run)) + TurnEvents(run.turns[|run.turns| - 1])
  {
    hide TurnEvents;
    var n := |run.turns| - 1;
    Associative(Initial(run), Later(run.turns[..n]), TurnEvents(run.turns[n]));
  }

  /** Each call may follow the one before it; while the loop goes on, the last is a verdict to retry. */
  ghost predicate Shaped(trace: seq<Event>, setup: Setup, going: bool) {
    && trace != [] && trace[0].Attempted? && Adjacent(trace, setup.hasGetBody) && Numbered(trace, setup)
    && (going ==> AsksAgain(trace))
  }

  lemma RetryStarts(e: Event, timer: Timer, hasGetBody: bool)
    requires e.Checked? && e.retry
    ensures Follows(e, Started(timer), hasGetBody)
  {
  }

  lemma TurnShaped(c: Client, before: seq<Event>, prev: Got, i: nat, t: Turn, original: Body?, hasGetBody: bool)
    requires Shaped(before, Setup(|c.intervals|, original, hasGetBody), true)
    requires c.SoundTurn(prev, i, t, original, hasGetBody)
    requires |AttemptsIn(before)| == i + 1 && AttemptsIn(before)[i] == prev
    ensures Shaped(before + TurnEvents(t), Setup(|c.intervals|, original, hasGetBody), Continues(t))
  {
    hide Sees, AttemptsIn, Follows, Attempt, Verdict, BeforeAttempt;
    TurnAdjacent(c, prev, i, t, original, hasGetBody);
    RetryStarts(before[|before| - 1], t.timer, hasGetBody);
    AdjacentConcat(before, TurnEvents(t), hasGetBody);
    TurnNumbered(c, before, prev, i, t, original, hasGetBody);
  }

  lemma TurnNumbered(c: Client, before: seq<Event>, prev: Got, i: nat, t: Turn, original: Body?, hasGetBody: bool)
    requires Numbered(before, Setup(|c.intervals|, original, hasGetBody))
    requires c.SoundTurn(prev, i, t, original, hasGetBody)
    requires |AttemptsIn(before)| == i + 1 && AttemptsIn(before)[i] == prev
    ensures Numbered(before + TurnEvents(t), Setup(|c.intervals|, original, hasGetBody))
  {
    hide AttemptsIn;
    QuietPieces(t);
    PiecesNumbered(before, [Started(t.timer)] + BeforeAttempt(t), Attempt(t), Verdict(t),
                   Setup(|c.intervals|, original, hasGetBody));
  }

  lemma PiecesNumbered(before: seq<Event>, wait: seq<Event>, attempt: seq<Event>, verdict: seq<Event>, setup: Setup)
    requires Numbered(before, setup) && NoAttempts(wait) && AttemptsIn(wait) == [] && NoAttempts(verdict)
    requires attempt == []
             || (|attempt| == 1 && attempt[0].Attempted? && Sees(attempt[0].s, AttemptsIn(before), setup))
    ensures Numbered(before + (wait + attempt + verdict), setup)
  {
    hide Numbered, NoAttempts, AttemptsIn, Sees;
    NumberedQuiet(before, wait, setup);
    NoneMore(before, wait);
    if attempt != [] {
      NumberedMore(before + wait, attempt[0], setup);
      assert attempt == [attempt[0]];
    } else {
      assert before + wait + attempt == before + wait;
    }
    NumberedQuiet(before + wait + attempt, verdict, setup);
    Associative(before + wait, attempt, verdict);
    Associative(before, wait, attempt + verdict);
    Associative(wait, attempt, verdict);
  }

  lemma NoneMore(a: seq<Event>, b: seq<Event>)
    requires AttemptsIn(b) == []
    ensures AttemptsIn(a + b) == AttemptsIn(a)
  {
    AttemptsConcat(a, b);
    assert AttemptsIn(a) + [] == AttemptsIn(a);
  }

  lemma QuietPieces(t: Turn)
    ensures var wait := [Started(t.timer)] + BeforeAttempt(t);
            NoAttempts(wait) && AttemptsIn(wait) == [] && NoAttempts(Verdict(t))
  {
    hide AttemptsIn, TimersIn;
    WaitQuiet(t);
    NoneMore([Started(t.timer)], BeforeAttempt(t));
  }

  lemma WaitQuiet(t: Turn)
    ensures AttemptsIn([Started(t.timer)]) == [] && AttemptsIn(BeforeAttempt(t)) == []
  {
    hide AttemptsIn, BeforeAttempt, TimersIn, Attempt, Verdict;
    PiecesOfTurn(t);
  }

  lemma {:induction false} RunShaped(c: Client, run: Run, original: Body?, hasGetBody: bool)
    requires c.Recorded(run, original, hasGetBody)
    ensures Shaped(Events(run), Setup(|c.intervals|, original, hasGetBody), c.Going(run))
    decreases |run.turns|
  {
    hide Shaped, Client.SoundTurn, Events, Gots;
    if run.turns == [] {
      InitialShaped(c, run, original, hasGetBody);
    } else {
      var n := |run.turns| - 1;
      var front := Front(run);
      FrontRecorded(c, run, original, hasGetBody);
      RunShaped(c, front, original, hasGetBody);
      EventsFront(run);
      RunParts(front);
      c.GotsWhileGoing(front);
      TurnShaped(c, Events(front), Before(run.g, run.turns[..n], n), n, run.turns[n], original, hasGetBody);
      assert c.Going(run) == Continues(run.turns[n]);
    }
  }

  lemma InitialShaped(c: Client, run: Run, original: Body?, hasGetBody: bool)
    requires c.Recorded(run, original, hasGetBody) && run.turns == []
    ensures Shaped(Events(run), Setup(|c.intervals|, original, hasGetBody), c.Going(run))
  {
    hide Client.SoundTurn, Distinct, Numbered;
    var verdict := if run.verdict == None then [] else [Checked(run.g.response, run.g.err, run.verdict.value)];
    FirstNumbered(run.s, run.g, verdict, Setup(|c.intervals|, original, hasGetBody));
    assert Events(run) == [Attempted(run.s, run.g)] + verdict;
  }

  lemma FirstNumbered(s: Seen, g: Got, verdict: seq<Event>, setup: Setup)
    requires Sees(s, [], setup) && NoAttempts(verdict)
    ensures Numbered([Attempted(s, g)] + verdict, setup)
  {
    hide Sees;
    NumberedMore([], Attempted(s, g), setup);
    assert [] + [Attempted(s, g)] == [Attempted(s, g)];
    NumberedQuiet([Attempted(s, g)], verdict, setup);
  }

  // ---------------------------------------------------------------- how Do ends

  /** What the last call, and the attempts before it, make Do return. */
  ghost predicate EndsAs(trace: seq<Event>, response: Response?, err: Option<Error>) {
    && trace != [] && AttemptsIn(trace) != []
    && var last, got := trace[|trace| - 1], AttemptsIn(trace);
       var g := got[|got| - 1];
       && (last.StoppedTimer? ==> TimersIn(trace) != [] && last.timer == TimersIn(trace)[|TimersIn(trace)| - 1])
       && if last.NoBody? then response == null && err == Some(GetBodyError(last.cause))
          else if last.StoppedTimer? || (|got| > 1 && g.done) then response == null && err == Some(ContextError)
          else response == g.response && err == g.err
  }

  /** If the last call is a retry verdict, no retry is left. */
  ghost predicate ExhaustedIfAsked(trace: seq<Event>, retries: int) {
    AsksAgain(trace) ==> |AttemptsIn(trace)| == 1 + retries
  }

  lemma LastOfTurn(t: Turn)
    ensures var events := TurnEvents(t);
            && events != []
            && var last := events[|events| - 1];
               match t
               case Stopped(_, _, timer) => last == StoppedTimer(timer)
               case Refused(_, _, _, cause) => last == NoBody(cause)
               case Tried(_, _, _, _, _, g, again) =>
                 if !g.done then last == Checked(g.response, g.err, again)
                 else if g.body != null then last == Closed(g.body)
                 else last.Attempted?
  {
  }

  /**
   One call of Do, as its environment sees it: the trace starts with an attempt, each call may follow the
   one before it, every attempt sees its number and the last result; the last call decides what Do
   returns; and Do stops asking for retries only when none is left.
   */
  lemma DoAsSeen(c: Client, run: Run, original: Body?, hasGetBody: bool, response: Response?, err: Option<Error>,
                 done: bool)
    requires c.Recorded(run, original, hasGetBody) && c.Ends(run, response, err, done)
    ensures var trace, retries := Events(run), |c.intervals|;
            && trace != [] && trace[0].Attempted? && Adjacent(trace, hasGetBody)
            && Numbered(trace, Setup(retries, original, hasGetBody))
            && EndsAs(trace, response, err) && ExhaustedIfAsked(trace, retries)
            && (retries == 0 ==> |trace| == 1)
  {
    hide Client.SoundTurn, Adjacent, Numbered;
    RunShaped(c, run, original, hasGetBody);
    RunParts(run);
    if run.turns == [] {
      assert Gots(run.g, run.turns) == [run.g];
    } else {
      var n := |run.turns| - 1;
      FrontRecorded(c, run, original, hasGetBody);
      EventsFront(run);
      RunEnds(c, run, original, hasGetBody, response, err, done);
    }
  }

  lemma RunEnds(c: Client, run: Run, original: Body?, hasGetBody: bool, response: Response?, err: Option<Error>,
                done: bool)
    requires c.Recorded(run, original, hasGetBody) && c.Ends(run, response, err, done) && run.turns != []
    ensures EndsAs(Events(run), response, err) && ExhaustedIfAsked(Events(run), |c.intervals|)
  {
    hide Client.SoundTurn, TurnEvents, AttemptsIn, TimersIn, Events, Gots, Distinct;
    var n := |run.turns| - 1;
    var t, front := run.turns[n], Front(run);
    FrontRecorded(c, run, original, hasGetBody);
    EventsFront(run);
    RunParts(run);
    RunParts(front);
    c.GotsWhileGoing(front);
    RetriedFront(run.g, run.turns);
    LastOfTurn(t);
    assert Events(run)[|Events(run)| - 1] == TurnEvents(t)[|TurnEvents(t)| - 1];
  }

  // ---------------------------------------------------------------- the waits

  lemma {:induction false} TimersAt(turns: seq<Turn>)
    ensures |TimersOf(turns)| == |turns| && forall i | 0 <= i < |turns| :: TimersOf(turns)[i] == turns[i].timer
  {
    if turns != [] {
      TimersAt(turns[..|turns| - 1]);
    }
  }

  /** The timers in the trace, one by one, are given the documented waits. */
  lemma WaitsAsDocumented(c: Client, run: Run, original: Body?, hasGetBody: bool)
    requires c.Valid() && c.Recorded(run, original, hasGetBody)
    ensures var timers := TimersIn(Events(run));
            forall i | 0 <= i < |timers| :: Intervals.Documented(c.f.unit, c.cfg, i, timers[i].wait)
  {
    RunParts(run);
    TimersAt(run.turns);
    var timers := TimersIn(Events(run));
    forall i | 0 <= i < |timers|
      ensures Intervals.Documented(c.f.unit, c.cfg, i, timers[i].wait)
    {
      assert c.SoundTurn(Before(run.g, run.turns, i), i, run.turns[i], original, hasGetBody);
      Intervals.WaitIsDocumented(c.f, c.cfg, i, timers[i].wait);
    }
  }
}

/**
 What a client of the encoder gets to see, said of the links of the error, the rule and the response
 alone: which rule is used, which status is written, where each header comes from, and where each field
 of the body does.
 */
module ErrauxResponse {
  import opened Erraux
  import opened ErrauxCode
  import opened ErrauxFields
  import opened ErrauxRules
  import opened HeaderAlgebra
  import opened HeaderSpec
  import opened Options

  // ---------------------------------------------------------------- what an error says of itself

  /** The first link with each of the optional interfaces, or the length of the chain. */
  datatype Places = Places(status: nat, headers: nat, cause: nat, fields: nat)

  ghost predicate Located(err: seq<Link>, p: Places) {
    && p.status <= |err| && (forall i | 0 <= i < p.status :: err[i].status == None)
    && (p.status < |err| ==> err[p.status].status != None)
    && p.headers <= |err| && (forall i | 0 <= i < p.headers :: err[i].headers == None)
    && (p.headers < |err| ==> err[p.headers].headers != None)
    && p.cause <= |err| && (forall i | 0 <= i < p.cause :: err[i].cause == None)
    && (p.cause < |err| ==> err[p.cause].cause != None)
    && p.fields <= |err| && (forall i | 0 <= i < p.fields :: err[i].fields == None)
    && (p.fields < |err| ==> err[p.fields].fields != None)
  }

  /** Its own status, unless that is below 100. */
  ghost function OwnStatus(err: seq<Link>, p: Places): int
    requires Located(err, p)
  {
    if p.status < |err| && err[p.status].status.value >= 100 then err[p.status].status.value else 500
  }

  ghost function OwnHeaders(err: seq<Link>, p: Places): HeaderMap
    requires Located(err, p)
  {
    if p.headers < |err| then err[p.headers].headers.value else map[]
  }

  /** Its own cause, or its text. */
  ghost function OwnCause(err: seq<Link>, p: Places): string
    requires Located(err, p) && err != []
  {
    if p.cause < |err| then err[p.cause].cause.value else err[0].text
  }

  ghost function OwnItems(err: seq<Link>, p: Places): seq<Value>
    requires Located(err, p)
  {
    if p.fields < |err| then err[p.fields].fields.value else []
  }

  lemma {:induction false} FirstIsAt(err: seq<Link>, fits: Link -> bool, k: nat)
    requires k <= |err| && (k < |err| ==> fits(err[k])) && forall i | 0 <= i < k :: !fits(err[i])
    ensures First(err, fits) == k
  {
    var j := First(err, fits);
  }

  lemma Says(err: seq<Link>, p: Places)
    requires err != [] && Located(err, p)
    ensures StatusCodeFor(err) == OwnStatus(err, p) && HeadersFor(err) == OwnHeaders(err, p)
    ensures CauseFor(err) == OwnCause(err, p) && FieldsFor(err) == OwnItems(err, p)
  {
    hide First;
    FirstIsAt(err, (l: Link) => l.status.Some?, p.status);
    FirstIsAt(err, (l: Link) => l.headers.Some?, p.headers);
    FirstIsAt(err, (l: Link) => l.cause.Some?, p.cause);
    FirstIsAt(err, (l: Link) => l.fields.Some?, p.fields);
  }

  // ---------------------------------------------------------------- what a response shows

  /** No link fits the rule. */
  ghost predicate Passes(rule: Rule, err: seq<Link>) {
    match rule
    case Is(target, _, _, _) => forall i | 0 <= i < |err| :: err[i].id != target
    case As(kind, _, _, _, _) => forall i | 0 <= i < |err| :: kind !in err[i].types
  }

  /**
   Each header comes from the error, from one of the keys with that canonical name; else from the rule; else
   it is the JSON content type; else it is as it was.
   */
  ghost predicate HeaderIs(canon: Canon, header: HeaderMap, given: HeaderMap, own: seq<Field>, w: HeaderMap,
                           n: string)
  {
    if exists k :: k in given && canon(k) == n
    then n in header && exists k :: k in given && canon(k) == n && header[n] == given[k]
    else if Lookup(own, n) != [] then n in header && header[n] == Lookup(own, n)
    else if n == canon("Content-Type") then n in header && header[n] == ["application/json"]
    else if n in w then n in header && header[n] == w[n]
    else n !in header
  }

  /**
   Each field of the body has the last value that the error gives it, nil if that is missing; else "code" is the
   status; else it is the rule's, and "cause" the error's if the rule has none.
   */
  ghost predicate FieldIs(f: FieldMap, items: seq<Value>, status: int, own: FieldMap, cause: string, name: string) {
    var i := Last(items, name);
    if i >= 0 then name in f && f[name] == (if i + 1 < |items| then items[i + 1] else Null)
    else if name == "code" then name in f && f[name] == Number(status)
    else if name in own then name in f && f[name] == own[name]
    else if name == "cause" then name in f && f[name] == Text(cause)
    else name !in f
  }

  /** The header is written with this status, and then the body, unless there is none or a name is not a string. */
  ghost predicate Shows(out: Outcome, status: int, disableBody: bool, items: seq<Value>, own: FieldMap, cause: string) {
    var bad := exists i | 0 <= i < |items| && i % 2 == 0 :: !items[i].Text?;
    && (out.panicked <==> !disableBody && bad)
    && |out.calls| == (if disableBody || bad then 1 else 2)
    && out.calls[0] == Head(status, out.header)
    && (!disableBody && !bad ==>
          out.calls[1].Body? && forall name :: FieldIs(out.calls[1].fields, items, status, own, cause, name))
  }

  // ---------------------------------------------------------------- the three ways

  lemma HeadersAre(canon: Canon, order: Order, given: HeaderMap, own: seq<Field>, w: HeaderMap, n: string)
    requires Enumerating(order) && Valid(canon, own)
    ensures var w' := w[canon("Content-Type") := ["application/json"]];
            HeaderIs(canon, Overwrite(canon, SetTo(own, w'), Listed(order, given)), given, own, w, n)
  {
    hide Overwrite, SetTo, Lookup, Listed;
    var w' := w[canon("Content-Type") := ["application/json"]];
    OverwrittenAt(canon, order, given, own, w', n);
    CleanLast(canon, order, given, n);
  }

  lemma FieldsAre(base: FieldMap, items: seq<Value>, status: int, own: FieldMap, cause: string, name: string)
    requires !Added(base, items).panicked
    requires base == (if "cause" in own then own["code" := Number(status)]
                      else own["code" := Number(status)]["cause" := Text(cause)])
    ensures FieldIs(Added(base, items).fields, items, status, own, cause, name)
  {
    AddedMeans(base, items, name);
  }

  lemma RenderedShows(header: HeaderMap, base: FieldMap, status: int, disableBody: bool, items: seq<Value>,
                      own: FieldMap, cause: string)
    requires base == (if "cause" in own then own["code" := Number(status)]
                      else own["code" := Number(status)]["cause" := Text(cause)])
    ensures Shows(Rendered(status, header, if disableBody then None else Some(Added(base, items))),
                  status, disableBody, items, own, cause)
  {
    hide Added, FieldIs;
    AddedPanics(base, items);
    if !Added(base, items).panicked {
      forall name
        ensures FieldIs(Added(base, items).fields, items, status, own, cause, name)
      {
        FieldsAre(base, items, status, own, cause, name);
      }
    }
  }

  lemma ChosenIs(rules: seq<Rule>, err: seq<Link>, k: nat)
    requires k <= |rules| && forall j | 0 <= j < k :: Passes(rules[j], err)
    requires k < |rules| ==> !Passes(rules[k], err)
    ensures Chosen(rules, err) == k
  {
    forall j | 0 <= j < k
      ensures !Handles(rules[j], err)
    {
      assert Passes(rules[j], err);
    }
  }

  /** No rule fits: the error speaks for itself. */
  lemma FallbackResponse(canon: Canon, order: Order, e: Encoder, err: seq<Link>, p: Places, w: HeaderMap)
    requires err != [] && Enumerating(order) && Located(err, p)
    requires forall j | 0 <= j < |e.rules| :: Passes(e.rules[j], err)
    ensures var out := Encoded(canon, order, e, err, w);
            && Shows(out, OwnStatus(err, p), e.disableBody, OwnItems(err, p), map[], OwnCause(err, p))
            && forall n :: HeaderIs(canon, out.header, OwnHeaders(err, p), [], w, n)
  {
    hide Shows, HeaderIs, Overwrite, Added, Chosen, Passes, Listed, RuleOutcome;
    ChosenIs(e.rules, err, |e.rules|);
    Says(err, p);
    var w', status := w[canon("Content-Type") := ["application/json"]], OwnStatus(err, p);
    var header := Overwrite(canon, w', Listed(order, OwnHeaders(err, p)));
    var base: FieldMap := map["code" := Number(status), "cause" := Text(OwnCause(err, p))];
    RenderedShows(header, base, status, e.disableBody, OwnItems(err, p), map[], OwnCause(err, p));
    assert SetTo([], w') == w';
    forall n
      ensures HeaderIs(canon, header, OwnHeaders(err, p), [], w, n)
    {
      HeadersAre(canon, order, OwnHeaders(err, p), [], w, n);
    }
  }

  /** What an As rule makes of the matched error. */
  lemma MatchedResponse(canon: Canon, order: Order, rule: Rule, target: seq<Link>, p: Places, w: HeaderMap)
    requires Enumerating(order) && rule.As? && Valid(canon, rule.header) && target != [] && Located(target, p)
    ensures var out := AsOutcome(canon, order, rule, target, w[canon("Content-Type") := ["application/json"]]);
            var status := if rule.status >= 100 then rule.status else OwnStatus(target, p);
            && Shows(out, status, rule.disableBody, OwnItems(target, p), rule.fields, OwnCause(target, p))
            && forall n :: HeaderIs(canon, out.header, OwnHeaders(target, p), rule.header, w, n)
  {
    Says(target, p);
    hide Shows, HeaderIs, Overwrite, Added, Listed, SetTo, Valid, Located;
    hide OwnStatus, OwnHeaders, OwnCause, OwnItems, StatusCodeFor, HeadersFor, CauseFor, FieldsFor;
    var w' := w[canon("Content-Type") := ["application/json"]];
    var status := if rule.status >= 100 then rule.status else OwnStatus(target, p);
    var header := Overwrite(canon, SetTo(rule.header, w'), Listed(order, OwnHeaders(target, p)));
    var coded := rule.fields["code" := Number(status)];
    var base := if "cause" in rule.fields then coded else coded["cause" := Text(OwnCause(target, p))];
    RenderedShows(header, base, status, rule.disableBody, OwnItems(target, p), rule.fields, OwnCause(target, p));
    forall n
      ensures HeaderIs(canon, header, OwnHeaders(target, p), rule.header, w, n)
    {
      HeadersAre(canon, order, OwnHeaders(target, p), rule.header, w, n);
    }
  }

  /** The `k`-th rule is the first that fits, an As rule, and link `m` the first of its type. */
  lemma AsResponse(canon: Canon, order: Order, e: Encoder, err: seq<Link>, k: nat, m: nat, p: Places, w: HeaderMap)
    requires Enumerating(order) && k < |e.rules| && forall j | 0 <= j < k :: Passes(e.rules[j], err)
    requires e.rules[k].As? && Valid(canon, e.rules[k].header)
    requires m < |err| && e.rules[k].kind in err[m].types
    requires forall i | 0 <= i < m :: e.rules[k].kind !in err[i].types
    requires Located(err[m..], p)
    ensures var out, rule, target := Encoded(canon, order, e, err, w), e.rules[k], err[m..];
            var status := if rule.status >= 100 then rule.status else OwnStatus(target, p);
            && Shows(out, status, rule.disableBody, OwnItems(target, p), rule.fields, OwnCause(target, p))
            && forall n :: HeaderIs(canon, out.header, OwnHeaders(target, p), rule.header, w, n)
  {
    ChosenIs(e.rules, err, k);
    MatchedFrom(e.rules[k].kind, err, m);
    hide Chosen, Matched, Passes, Located, Valid, AsOutcome, Shows, HeaderIs, OwnStatus, OwnCause, OwnHeaders, OwnItems;
    MatchedResponse(canon, order, e.rules[k], err[m..], p, w);
  }

  lemma MatchedFrom(kind: nat, err: seq<Link>, m: nat)
    requires m < |err| && kind in err[m].types && forall i | 0 <= i < m :: kind !in err[i].types
    ensures Matched(kind, err) == err[m..]
  {
    var target := Matched(kind, err);
    var first := |err| - |target|;
    assert err[first] == target[0];
    assert first == m;
  }

  /** The `k`-th rule is the first that fits, and an Is rule: what it holds is written, whatever the error says. */
  lemma IsResponse(canon: Canon, order: Order, e: Encoder, err: seq<Link>, k: nat, w: HeaderMap)
    requires err != [] && Enumerating(order) && k < |e.rules| && forall j | 0 <= j < k :: Passes(e.rules[j], err)
    requires e.rules[k].Is? && Valid(canon, e.rules[k].header)
    requires exists i | 0 <= i < |err| :: err[i].id == e.rules[k].target
    ensures var out, rule := Encoded(canon, order, e, err, w), e.rules[k];
            && !out.panicked
            && out.calls == [Head(rule.status, out.header)]
                            + (if rule.body == None then [] else [Body(rule.body.value)])
            && forall n :: HeaderIs(canon, out.header, map[], rule.header, w, n)
  {
    hide HeaderIs, Overwrite, Chosen, SetTo, Listed, Valid;
    var rule := e.rules[k];
    ChosenIs(e.rules, err, k);
    hide Passes;
    var w' := w[canon("Content-Type") := ["application/json"]];
    assert Listed(order, map[]) == [] by {
      NothingListed(order);
    }
    NothingOverwritten(canon, SetTo(rule.header, w'));
    forall n
      ensures HeaderIs(canon, SetTo(rule.header, w'), map[], rule.header, w, n)
    {
      HeadersAre(canon, order, map[], rule.header, w, n);
    }
  }

  lemma NothingListed(order: Order)
    requires Enumerating(order)
    ensures Listed(order, map[]) == []
  {
    assert ListsKeys(order(map[]), map[]);
    NoKeys(order(map[]));
  }

  lemma NothingOverwritten(canon: Canon, w: HeaderMap)
    ensures Overwrite(canon, w, []) == w
  {
  }

  /**
   What Is makes of its target, as long as nothing is set on the rule: the target's own status, each name with
   the values of all keys that have it, and the fields that the fallback would write.
   */
  lemma IsRuleOf(canon: Canon, order: Order, target: seq<Link>, p: Places)
    requires Idempotent(canon) && Enumerating(order) && target != [] && Located(target, p)
    ensures var d, items := Start(canon, order, target), OwnItems(target, p);
            && d.status == OwnStatus(target, p)
            && (forall n :: Gained(canon, [], Lookup(d.header, n), OwnHeaders(target, p), n))
            && (d.panicked <==> exists i | 0 <= i < |items| && i % 2 == 0 :: !items[i].Text?)
            && (!d.panicked ==>
                  forall name :: FieldIs(d.fields, items, d.status, map[], OwnCause(target, p), name))
  {
    hide Added, AddAll, Gained, FieldIs, Located, Lookup, First;
    Says(target, p);
    hide OwnStatus, OwnHeaders, OwnCause, OwnItems, StatusCodeFor, HeadersFor, CauseFor, FieldsFor;
    var given, status, items := OwnHeaders(target, p), OwnStatus(target, p), OwnItems(target, p);
    forall n
      ensures Gained(canon, [], Lookup(NewHeader(canon, order, given), n), given, n)
    {
      assert ListsKeys(order(given), given);
      NothingThere(n);
      AppendMeans(canon, [], given, order(given), n);
    }
    var base: FieldMap := map["code" := Number(status), "cause" := Text(OwnCause(target, p))];
    AddedPanics(base, items);
    if !Added(base, items).panicked {
      forall name
        ensures FieldIs(Added(base, items).fields, items, status, map[], OwnCause(target, p), name)
      {
        FieldsAre(base, items, status, map[], OwnCause(target, p), name);
      }
    }
  }

  lemma NothingThere(n: string)
    ensures Lookup([], n) == []
  {
  }
}

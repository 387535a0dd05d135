/**
 The makers of rules, and the laws of the encoder: when a rule renders an error as the
 fallback would, which setting wins, and what the documentation promises but the code does not
 always do.
 */
module ErrauxRules {
  import opened HeaderSpec
  import opened HeaderAlgebra
  import opened ErrauxFields
  import opened Options
  import opened Erraux

  // ---------------------------------------------------------------- making rules

  class IsEncoder {
    const target: seq<Link>
    const fields: Fields
    var statusCode: int
    var header: seq<Field>

    constructor (target: seq<Link>, header: seq<Field>)
      ensures this.target == target && this.header == header && fresh(fields) && fields.m == map[]
    {
      this.target, this.header, statusCode := target, header, 0;
      fields := new Fields.Empty();
    }

    method StatusCode(c: int)
      modifies this, fields
      ensures statusCode == c && fields.m == old(fields.m)[CODE := Number(c)] && header == old(header)
    {
      statusCode := c;
      fields.SetCode(c);
    }

    method Cause(v: string)
      modifies fields
      ensures fields.m == old(fields.m)[CAUSE := Text(v)]
    {
      fields.SetCause(v);
    }

    method Headers(canon: Canon, v: seq<string>)
      modifies this
      ensures header == AddAll(canon, old(header), Pairs(v)) && statusCode == old(statusCode)
      ensures Idempotent(canon) && Valid(canon, old(header)) ==> Valid(canon, header)
    {
      if Idempotent(canon) && Valid(canon, header) {
        AddAllValid(canon, header, Pairs(v));
      }
      header := AddAll(canon, header, Pairs(v));
    }

    method AddFields(items: seq<Value>) returns (ok: bool)
      modifies fields
      ensures Sum(fields.m, !ok) == Added(old(fields.m), items)
    {
      ok := fields.Add(items);
    }

    /** What newErrorEncoder makes of the rule. */
    ghost function Compiled(disableBody: bool): Rule
      requires target != []
      reads this, fields
    {
      Rule.Is(target[0].id, statusCode, header, if disableBody then None else Some(fields.m))
    }
  }

  class AsEncoder {
    const kind: nat
    const fields: Fields
    var statusCode: int
    var header: seq<Field>

    constructor (kind: nat)
      ensures this.kind == kind && fresh(fields) && header == []
      ensures forall disableBody :: Compiled(disableBody) == BareAs(kind, disableBody)
    {
      this.kind, header, statusCode := kind, [], 0;
      fields := new Fields.Empty();
    }

    /** The status code is kept apart from the fields, to be settled when an error is encoded. */
    method StatusCode(c: int)
      modifies this
      ensures statusCode == c && header == old(header)
    {
      statusCode := c;
    }

    method Cause(v: string)
      modifies fields
      ensures fields.m == old(fields.m)[CAUSE := Text(v)]
    {
      fields.SetCause(v);
    }

    method Headers(canon: Canon, v: seq<string>)
      modifies this
      ensures header == AddAll(canon, old(header), Pairs(v)) && statusCode == old(statusCode)
      ensures Idempotent(canon) && Valid(canon, old(header)) ==> Valid(canon, header)
    {
      if Idempotent(canon) && Valid(canon, header) {
        AddAllValid(canon, header, Pairs(v));
      }
      header := AddAll(canon, header, Pairs(v));
    }

    method AddFields(items: seq<Value>) returns (ok: bool)
      modifies fields
      ensures Sum(fields.m, !ok) == Added(old(fields.m), items)
    {
      ok := fields.Add(items);
    }

    ghost function Compiled(disableBody: bool): Rule
      reads this, fields
    {
      Rule.As(kind, statusCode, header, fields.m, disableBody)
    }
  }

  /** What As is given: nothing, a pointer to an interface, an error, or something else. */
  datatype Target = NoTarget | InterfacePointer(kind: nat) | ErrorType(kind: nat) | OtherType

  /** As; it panics, and there is no rule, for a target that is neither of the two. */
  method NewAs(target: Target) returns (ae: AsEncoder?)
    ensures ae == null <==> target.NoTarget? || target.OtherType?
    ensures ae != null ==> fresh(ae) && fresh(ae.fields) && ae.header == []
    ensures ae != null ==> forall disableBody :: ae.Compiled(disableBody) == BareAs(target.kind, disableBody)
  {
    match target {
      case NoTarget => ae := null;
      case InterfacePointer(kind) => ae := new AsEncoder(kind);
      case ErrorType(kind) => ae := new AsEncoder(kind);
      case OtherType => ae := null;
    }
  }

  /** An As rule on which nothing has been set. */
  function BareAs(kind: nat, disableBody: bool): Rule {
    Rule.As(kind, 0, [], map[], disableBody)
  }

  /** An Is rule on which nothing has been set. */
  function BareIs(canon: Canon, order: Order, target: seq<Link>, disableBody: bool): Rule
    requires target != [] && Enumerating(order)
  {
    Rule.Is(target[0].id, StatusCodeFor(target), NewHeader(canon, order, HeadersFor(target)),
            if disableBody then None else Some(FallbackFields(target).fields))
  }

  function NewHeader(canon: Canon, order: Order, m: HeaderMap): seq<Field>
    requires Enumerating(order)
  {
    AddAll(canon, [], Listed(order, m))
  }

  /** Is; it panics if the target gives a field name that is not a string. */
  method NewIs(canon: Canon, order: Order, target: seq<Link>) returns (ie: IsEncoder, ok: bool)
    requires target != [] && Enumerating(order)
    ensures fresh(ie) && fresh(ie.fields) && ie.target == target
    ensures ok == !FallbackFields(target).panicked
    ensures Idempotent(canon) ==> Valid(canon, ie.header)
    ensures forall disableBody :: ie.Compiled(disableBody) == BareIs(canon, order, target, disableBody)
  {
    if Idempotent(canon) {
      AddAllValid(canon, [], Listed(order, HeadersFor(target)));
    }
    ie := new IsEncoder(target, NewHeader(canon, order, HeadersFor(target)));
    ie.StatusCode(StatusCodeFor(target));
    ie.Cause(CauseFor(target));
    ok := ie.AddFields(FieldsFor(target));
  }

  datatype EncoderRule = Fixed(ie: IsEncoder) | Dynamic(ae: AsEncoder)

  ghost function CompiledRule(r: EncoderRule, disableBody: bool): Rule
    requires r.Fixed? ==> r.ie.target != []
    reads if r.Fixed? then {r.ie, r.ie.fields} else {r.ae, r.ae.fields}
  {
    if r.Fixed? then r.ie.Compiled(disableBody) else r.ae.Compiled(disableBody)
  }

  /** Rules added from here on render a body or not; those added before stay as they are. */
  function WithBody(e: Encoder, v: bool): Encoder {
    e.(disableBody := !v)
  }

  /** Encoder.Add: each rule is compiled with the encoder's body setting at this point. */
  method Add(e: Encoder, rules: seq<EncoderRule>) returns (longer: Encoder)
    requires forall i | 0 <= i < |rules| :: rules[i].Fixed? ==> rules[i].ie.target != []
    ensures longer.disableBody == e.disableBody
    ensures |longer.rules| == |e.rules| + |rules| && longer.rules[..|e.rules|] == e.rules
    ensures forall i | 0 <= i < |rules| :: longer.rules[|e.rules| + i] == CompiledRule(rules[i], e.disableBody)
  {
    longer := e;
    for i := 0 to |rules|
      invariant longer.disableBody == e.disableBody
      invariant |longer.rules| == |e.rules| + i && longer.rules[..|e.rules|] == e.rules
      invariant forall j | 0 <= j < i :: longer.rules[|e.rules| + j] == CompiledRule(rules[j], e.disableBody)
    {
      var rule;
      match rules[i] {
        case Fixed(ie) =>
          rule := Rule.Is(ie.target[0].id, ie.statusCode, ie.header, if e.disableBody then None else Some(ie.fields.m));
        case Dynamic(ae) =>
          rule := Rule.As(ae.kind, ae.statusCode, ae.header, ae.fields.m, e.disableBody);
      }
      longer := longer.(rules := longer.rules + [rule]);
    }
  }

  // ---------------------------------------------------------------- one header, at most one body

  /** A response has one header, with the headers as they are at the end, then at most one body. */
  ghost predicate WrittenOnce(out: Outcome) {
    && 1 <= |out.calls| <= 2 && out.calls[0].Head? && out.calls[0].header == out.header
    && (|out.calls| == 2 ==> out.calls[1].Body? && !out.panicked)
  }

  lemma RenderedOnce(status: int, header: HeaderMap, body: Option<Sum>)
    ensures WrittenOnce(Rendered(status, header, body))
  {
  }

  lemma EncodedOnce(canon: Canon, order: Order, e: Encoder, err: seq<Link>, w: HeaderMap)
    requires err != [] && Enumerating(order)
    ensures WrittenOnce(Encoded(canon, order, e, err, w))
  {
    var w' := w[canon("Content-Type") := ["application/json"]];
    var k := Chosen(e.rules, err);
    if k == |e.rules| {
      FallbackOnce(canon, order, e.disableBody, err, w');
    } else if e.rules[k].Is? {
      IsOnce(e.rules[k], w');
    } else {
      AsOnce(canon, order, e.rules[k], Matched(e.rules[k].kind, err), w');
    }
  }

  lemma FallbackOnce(canon: Canon, order: Order, disableBody: bool, err: seq<Link>, w: HeaderMap)
    requires err != [] && Enumerating(order)
    ensures WrittenOnce(Fallback(canon, order, disableBody, err, w))
  {
    RenderedOnce(StatusCodeFor(err), Overwrite(canon, w, Listed(order, HeadersFor(err))),
                 if disableBody then None else Some(FallbackFields(err)));
  }

  lemma IsOnce(rule: Rule, w: HeaderMap)
    requires rule.Is?
    ensures WrittenOnce(IsOutcome(rule, w))
  {
    RenderedOnce(rule.status, SetTo(rule.header, w),
                 match rule.body case None => None case Some(fields) => Some(Sum(fields, false)));
  }

  lemma AsOnce(canon: Canon, order: Order, rule: Rule, target: seq<Link>, w: HeaderMap)
    requires rule.As? && target != [] && Enumerating(order)
    ensures WrittenOnce(AsOutcome(canon, order, rule, target, w))
  {
    var headers := HeadersFor(target);
    var status := if rule.status < 100 then StatusCodeFor(target) else rule.status;
    RenderedOnce(status, Overwrite(canon, SetTo(rule.header, w), Listed(order, headers)),
                 if rule.disableBody then None else Some(AsFields(rule, target, status)));
  }

  /**
   Encoder.Body changes nothing for the rules already there: an error that one of them handles is
   rendered as before.  The fallback keeps its header and has a body, if it can be built, exactly
   when bodies are on.
   */
  lemma BodyAffectsOnlyLater(canon: Canon, order: Order, e: Encoder, v: bool, err: seq<Link>, w: HeaderMap)
    requires err != [] && Enumerating(order)
    ensures var a, b := Encoded(canon, order, e, err, w), Encoded(canon, order, WithBody(e, v), err, w);
            && (Chosen(e.rules, err) < |e.rules| ==> b == a)
            && b.header == a.header && |a.calls| > 0 && |b.calls| > 0 && b.calls[0] == a.calls[0]
            && (Chosen(e.rules, err) == |e.rules| ==>
                  && (|b.calls| == 2 <==> v && !FallbackFields(err).panicked)
                  && (b.panicked <==> v && FallbackFields(err).panicked))
  {
    hide RuleOutcome, Overwrite, FallbackFields, Listed;
    EncodedOnce(canon, order, e, err, w);
  }

  // ---------------------------------------------------------------- Overwrite

  /** The last field of that canonical name, or -1. */
  function LastNamed(canon: Canon, items: seq<Field>, n: string): (i: int)
    ensures -1 <= i < |items| && (i >= 0 ==> canon(items[i].name) == n)
    ensures forall j | i < j < |items| :: canon(items[j].name) != n
  {
    if items == [] then -1
    else
      var last := |items| - 1;
      if canon(items[last].name) == n then last else LastNamed(canon, items[..last], n)
  }

  lemma {:induction false} OverwriteMeans(canon: Canon, w: HeaderMap, items: seq<Field>, n: string)
    ensures var r, i := Overwrite(canon, w, items), LastNamed(canon, items, n);
            && (n in r <==> n in w || i >= 0)
            && Get(r, n) == if i >= 0 then items[i].values else Get(w, n)
  {
    if items != [] {
      OverwriteMeans(canon, w, items[..|items| - 1], n);
    }
  }

  /** What sets the headers and the status: the header map of an error, the header of a rule, a status. */
  datatype Source = Source(given: HeaderMap, own: seq<Field>, status: int)

  /** The error under the fallback, the matched error and the rule under an As rule, the rule alone under an Is rule. */
  function SourceOf(e: Encoder, err: seq<Link>): Source {
    var k := Chosen(e.rules, err);
    if k == |e.rules| then Source(HeadersFor(err), [], StatusCodeFor(err)) else RuleSource(e.rules[k], err)
  }

  function RuleSource(rule: Rule, err: seq<Link>): Source
    requires Handles(rule, err)
  {
    match rule
    case Is(_, status, header, _) => Source(map[], header, status)
    case As(kind, status, header, _, _) =>
      var target := Matched(kind, err);
      Source(HeadersFor(target), header, if status >= 100 then status else StatusCodeFor(target))
  }

  /** An outcome with these headers, and that status. */
  ghost predicate SetBy(canon: Canon, order: Order, out: Outcome, s: Source, w: HeaderMap)
    requires Enumerating(order)
  {
    && out.header == Overwrite(canon, SetTo(s.own, w), Listed(order, s.given))
    && out.calls != [] && out.calls[0] == Head(s.status, out.header)
  }

  lemma FallbackSetBy(canon: Canon, order: Order, disableBody: bool, err: seq<Link>, w: HeaderMap)
    requires err != [] && Enumerating(order)
    ensures SetBy(canon, order, Fallback(canon, order, disableBody, err, w),
                  Source(HeadersFor(err), [], StatusCodeFor(err)), w)
  {
  }

  lemma RuleSetBy(canon: Canon, order: Order, rule: Rule, err: seq<Link>, w: HeaderMap)
    requires Handles(rule, err) && Enumerating(order)
    ensures SetBy(canon, order, RuleOutcome(canon, order, rule, err, w), RuleSource(rule, err), w)
  {
    hide SetTo, StatusCodeFor, HeadersFor, AsFields;
    if rule.Is? {
      NoKeys(order(map[]));
    }
  }

  lemma NoKeys(keys: seq<string>)
    ensures ListsKeys(keys, map[]) ==> keys == []
  {
    assert |multiset(keys)| == |keys|;
  }

  /** The value of one header name. */
  ghost predicate Wins(canon: Canon, order: Order, header: HeaderMap, s: Source, w: HeaderMap, n: string)
    requires Enumerating(order)
  {
    var items := Listed(order, s.given);
    var i := LastNamed(canon, items, n);
    Get(header, n) == (if i >= 0 then items[i].values
                       else if Lookup(s.own, n) != [] then Lookup(s.own, n)
                       else if n == canon("Content-Type") then ["application/json"]
                       else Get(w, n))
  }

  /**
   Which header wins: the error's, under the fallback and under an As rule; then the rule's; then
   what the response had, where the content type is always JSON.  And which status: the rule's,
   unless an As rule leaves it below 100; else the error's.
   */
  lemma Precedence(canon: Canon, order: Order, e: Encoder, err: seq<Link>, w: HeaderMap, n: string)
    requires err != [] && Enumerating(order) && Valid(canon, SourceOf(e, err).own)
    ensures var out := Encoded(canon, order, e, err, w);
            && Wins(canon, order, out.header, SourceOf(e, err), w, n)
            && out.calls != [] && out.calls[0] == Head(SourceOf(e, err).status, out.header)
  {
    var w', k, s := w[canon("Content-Type") := ["application/json"]], Chosen(e.rules, err), SourceOf(e, err);
    if k == |e.rules| {
      FallbackSetBy(canon, order, e.disableBody, err, w');
    } else {
      RuleSetBy(canon, order, e.rules[k], err, w');
    }
    assert SetBy(canon, order, Encoded(canon, order, e, err, w), s, w');
    SetByWins(canon, order, Encoded(canon, order, e, err, w), s, w, n);
  }

  lemma SetByWins(canon: Canon, order: Order, out: Outcome, s: Source, w: HeaderMap, n: string)
    requires Enumerating(order) && Valid(canon, s.own)
    requires SetBy(canon, order, out, s, w[canon("Content-Type") := ["application/json"]])
    ensures Wins(canon, order, out.header, s, w, n)
  {
    var w' := w[canon("Content-Type") := ["application/json"]];
    SetToMeans(canon, s.own, w', n);
    OverwriteMeans(canon, SetTo(s.own, w'), Listed(order, s.given), n);
  }

  /** No two keys with the same canonical name, and no key without values. */
  ghost predicate Clean(canon: Canon, m: HeaderMap) {
    !Collides(canon, m.Keys) && forall k | k in m :: m[k] != []
  }

  /** For a clean map, setting its keys one by one and setting the Header made of it are the same. */
  lemma CleanAgrees(canon: Canon, order: Order, order': Order, m: HeaderMap, w: HeaderMap)
    requires Idempotent(canon) && Enumerating(order) && Enumerating(order') && Clean(canon, m)
    ensures SetTo(NewHeader(canon, order, m), w) == Overwrite(canon, w, Listed(order', m))
  {
    var a, b := SetTo(NewHeader(canon, order, m), w), Overwrite(canon, w, Listed(order', m));
    forall n
      ensures (n in a <==> n in b) && Get(a, n) == Get(b, n)
    {
      CleanAgreesAt(canon, order, order', m, w, n);
    }
    SameMap(a, b);
  }

  /** What NewHeader holds for a name. */
  lemma NewHeaderLookup(canon: Canon, order: Order, m: HeaderMap, n: string)
    requires Idempotent(canon) && Enumerating(order)
    ensures Valid(canon, NewHeader(canon, order, m))
    ensures Lookup(NewHeader(canon, order, m), n) == Gather(canon, Listed(order, m), n)
  {
    AddAllValid(canon, [], Listed(order, m));
    AddAllMeans(canon, [], Listed(order, m), n);
  }

  lemma CleanAgreesAt(canon: Canon, order: Order, order': Order, m: HeaderMap, w: HeaderMap, n: string)
    requires Idempotent(canon) && Enumerating(order) && Enumerating(order') && Clean(canon, m)
    ensures var a, b := SetTo(NewHeader(canon, order, m), w), Overwrite(canon, w, Listed(order', m));
            (n in a <==> n in b) && Get(a, n) == Get(b, n)
  {
    NewHeaderLookup(canon, order, m, n);
    SetToMeans(canon, NewHeader(canon, order, m), w, n);
    OverwriteMeans(canon, w, Listed(order', m), n);
    GatherKey(canon, order(m), m, n);
    CleanLast(canon, order', m, n);
  }

  lemma CleanLast(canon: Canon, order: Order, m: HeaderMap, n: string)
    requires Enumerating(order)
    ensures var i := LastNamed(canon, Listed(order, m), n);
            if i < 0 then forall k | k in m :: canon(k) != n
            else var k := order(m)[i]; k in m && canon(k) == n && Listed(order, m)[i].values == m[k]
  {
    EnumeratesOnce(order(m), m.Keys);
    var items := Listed(order, m);
    if LastNamed(canon, items, n) < 0 {
      forall k | k in m
        ensures canon(k) != n
      {
        var j :| 0 <= j < |order(m)| && order(m)[j] == k;
        assert items[j].name == k;
      }
    }
  }

  // ---------------------------------------------------------------- iteration orders

  /** The order that agrees with `order`, except that key `k` of map `m` comes last. */
  function Moved(order: Order, m: HeaderMap, k: string): Order
    requires Enumerating(order) && k in m
  {
    (x: HeaderMap) => if x == m then ToEnd(order(m), k) else order(x)
  }

  function ToEnd(keys: seq<string>, k: string): seq<string> {
    var i := IndexOf(keys, k);
    if i < |keys| then keys[..i] + keys[i + 1..] + [k] else keys
  }

  function IndexOf(s: seq<string>, k: string): (i: nat)
    ensures i <= |s| && (i < |s| ==> s[i] == k)
    ensures k in s ==> i < |s|
  {
    if s == [] || s[0] == k then 0 else 1 + IndexOf(s[1..], k)
  }

  lemma ToEndLists(keys: seq<string>, m: HeaderMap, k: string)
    requires ListsKeys(keys, m) && k in m
    ensures ListsKeys(ToEnd(keys, k), m)
    ensures var o := ToEnd(keys, k); |o| > 0 && o[|o| - 1] == k
  {
    EnumeratesOnce(keys, m.Keys);
    var i := IndexOf(keys, k);
    assert keys == keys[..i] + [k] + keys[i + 1..];
    assert multiset(ToEnd(keys, k)) == multiset(keys);
    EnumeratesOnce(ToEnd(keys, k), m.Keys);
  }

  lemma MovedEnumerates(order: Order, m: HeaderMap, k: string)
    requires Enumerating(order) && k in m
    ensures Enumerating(Moved(order, m, k))
    ensures var o := Moved(order, m, k)(m); |o| > 0 && o[|o| - 1] == k
  {
    assert ListsKeys(order(m), m);
    ToEndLists(order(m), m, k);
    forall x: HeaderMap
      ensures ListsKeys(Moved(order, m, k)(x), x)
    {
      assert ListsKeys(order(x), x);
    }
  }

  lemma BothGathered(canon: Canon, items: seq<Field>, i: nat, n: string)
    requires i < |items| - 1 && canon(items[i].name) == n == canon(items[|items| - 1].name) && items[i].values != []
    ensures |Gather(canon, items, n)| > |items[|items| - 1].values|
  {
    var last := |items| - 1;
    assert items == items[..last] + [items[last]];
    GatherConcat(canon, items[..last], [items[last]], n);
    assert [items[last]][1..] == [];
    GatherAround(canon, items[..last], i, n);
  }

  // ---------------------------------------------------------------- As against the fallback

  /** A bare As rule renders the matched error as the fallback would, panics included. */
  lemma AsIsFallback(canon: Canon, order: Order, kind: nat, err: seq<Link>, disableBody: bool, w: HeaderMap)
    requires Enumerating(order) && Handles(BareAs(kind, disableBody), err)
    ensures RuleOutcome(canon, order, BareAs(kind, disableBody), err, w)
            == Fallback(canon, order, disableBody, Matched(kind, err), w)
  {
    var target := Matched(kind, err);
    var fields: FieldMap := map[];
    assert fields[CODE := Number(StatusCodeFor(target))][CAUSE := Text(CauseFor(target))]
        == map[CODE := Number(StatusCodeFor(target)), CAUSE := Text(CauseFor(target))];
  }

  /** Which setting of a field wins: the error's own, then the status and the causes, then the rule's. */
  lemma AsFieldPrecedence(rule: Rule, target: seq<Link>, status: int, name: string)
    requires rule.As? && target != [] && !AsFields(rule, target, status).panicked
    ensures var f, items := AsFields(rule, target, status).fields, FieldsFor(target);
            var i := Last(items, name);
            && (name in f <==> i >= 0 || name == CODE || name == CAUSE || name in rule.fields)
            && (name in f ==>
                  f[name] == (if i >= 0 then (if i + 1 < |items| then items[i + 1] else Null)
                              else if name == CODE then Number(status)
                              else if name == CAUSE && CAUSE !in rule.fields then Text(CauseFor(target))
                              else rule.fields[name]))
  {
    var coded := rule.fields[CODE := Number(status)];
    AddedMeans(if CAUSE in rule.fields then coded else coded[CAUSE := Text(CauseFor(target))], FieldsFor(target), name);
  }

  // ---------------------------------------------------------------- headers set on an As rule

  /** What the documentation says of the headers: those of the rule are added to the error's. */
  function Documented(canon: Canon, order: Order, m: HeaderMap, own: seq<Field>, w: HeaderMap): HeaderMap
    requires Enumerating(order)
  {
    SetTo(Extend(canon, NewHeader(canon, order, m), own), w)
  }

  /** The headers of the response are the documented ones, for these iteration orders and this response. */
  ghost predicate AddsHeaders(canon: Canon, order: Order, order': Order, rule: Rule, err: seq<Link>, w: HeaderMap)
    requires rule.As? && Handles(rule, err) && Enumerating(order) && Enumerating(order')
  {
    RuleOutcome(canon, order', rule, err, w).header
    == Documented(canon, order, HeadersFor(Matched(rule.kind, err)), rule.header, w)
  }

  lemma AsHeader(canon: Canon, order: Order, rule: Rule, err: seq<Link>, w: HeaderMap)
    requires rule.As? && Handles(rule, err) && Enumerating(order)
    ensures RuleOutcome(canon, order, rule, err, w).header
            == Overwrite(canon, SetTo(rule.header, w), Listed(order, HeadersFor(Matched(rule.kind, err))))
  {
    AsOutcomeIs(canon, order, rule, Matched(rule.kind, err), w,
                if rule.status < 100 then StatusCodeFor(Matched(rule.kind, err)) else rule.status);
  }

  /** The documented value of a name. */
  lemma DocumentedAt(canon: Canon, order: Order, m: HeaderMap, own: seq<Field>, w: HeaderMap, n: string)
    requires Idempotent(canon) && Enumerating(order) && Valid(canon, own)
    ensures var all, d := Gather(canon, Listed(order, m), n) + Lookup(own, n), Documented(canon, order, m, own, w);
            && (n in d <==> n in w || all != [])
            && Get(d, n) == (if all != [] then all else Get(w, n))
  {
    var h := NewHeader(canon, order, m);
    NewHeaderLookup(canon, order, m, n);
    ExtendMeans(canon, h, own);
    SetToMeans(canon, Extend(canon, h, own), w, n);
  }

  /** The value of a name when the rule's headers are set and then overwritten. */
  lemma OverwrittenAt(canon: Canon, order: Order, m: HeaderMap, own: seq<Field>, w: HeaderMap, n: string)
    requires Enumerating(order) && Valid(canon, own)
    ensures var i, a := LastNamed(canon, Listed(order, m), n), Overwrite(canon, SetTo(own, w), Listed(order, m));
            && (n in a <==> n in w || Lookup(own, n) != [] || i >= 0)
            && Get(a, n) == (if i >= 0 then Listed(order, m)[i].values
                             else if Lookup(own, n) != [] then Lookup(own, n) else Get(w, n))
  {
    SetToMeans(canon, own, w, n);
    OverwriteMeans(canon, SetTo(own, w), Listed(order, m), n);
  }

  /** For a clean map that shares no name with the rule, overwriting and adding are the same. */
  lemma DisjointAdds(canon: Canon, order: Order, order': Order, m: HeaderMap, own: seq<Field>, w: HeaderMap)
    requires Idempotent(canon) && Enumerating(order) && Enumerating(order') && Clean(canon, m) && Valid(canon, own)
    requires forall k | k in m :: Lookup(own, canon(k)) == []
    ensures Overwrite(canon, SetTo(own, w), Listed(order', m)) == Documented(canon, order, m, own, w)
  {
    var a, d := Overwrite(canon, SetTo(own, w), Listed(order', m)), Documented(canon, order, m, own, w);
    forall n
      ensures (n in a <==> n in d) && Get(a, n) == Get(d, n)
    {
      DocumentedAt(canon, order, m, own, w, n);
      OverwrittenAt(canon, order', m, own, w, n);
      GatherKey(canon, order(m), m, n);
      CleanLast(canon, order', m, n);
    }
    SameMap(a, d);
  }

  /** With key `k` visited last, its canonical name ends up with the values of `k`, whatever is in the way. */
  lemma LastKeyWins(canon: Canon, order: Order, m: HeaderMap, k: string, own: seq<Field>)
    requires Enumerating(order) && k in m && Valid(canon, own)
    ensures var order' := Moved(order, m, k);
            && Enumerating(order')
            && var a := Overwrite(canon, SetTo(own, map[]), Listed(order', m));
               canon(k) in a && a[canon(k)] == m[k]
  {
    MovedEnumerates(order, m, k);
    var order' := Moved(order, m, k);
    OverwrittenAt(canon, order', m, own, map[], canon(k));
    assert LastNamed(canon, Listed(order', m), canon(k)) == |order'(m)| - 1;
  }

  /**
   When a key shares its canonical name with another key or with the rule, or has no values, the
   response differs from what is documented for some iteration order.
   */
  lemma NotAdded(canon: Canon, order: Order, m: HeaderMap, k: string, own: seq<Field>)
    requires Idempotent(canon) && Enumerating(order) && k in m && Valid(canon, own)
    requires || m[k] == [] || Lookup(own, canon(k)) != []
             || exists j :: j in m && j != k && canon(j) == canon(k) && m[j] != []
    ensures var order' := Moved(order, m, k);
            && Enumerating(order')
            && Overwrite(canon, SetTo(own, map[]), Listed(order', m)) != Documented(canon, order', m, own, map[])
  {
    hide Overwrite, SetTo, Documented, Gather, Lookup;
    var order', n := Moved(order, m, k), canon(k);
    LastKeyWins(canon, order, m, k, own);
    DocumentedAt(canon, order', m, own, map[], n);
    var items := Listed(order', m);
    var given := Gather(canon, items, n);
    MovedEnumerates(order, m, k);
    EnumeratesOnce(order'(m), m.Keys);
    assert |given| >= |m[k]| by {
      GatherAround(canon, items, |items| - 1, n);
    }
    if m[k] != [] && Lookup(own, n) == [] {
      var j :| j in m && j != k && canon(j) == n && m[j] != [];
      var i :| 0 <= i < |order'(m)| && order'(m)[i] == j;
      BothGathered(canon, items, i, n);
    }
  }

  /**
   The headers set on an As rule are added to the matched error's, as documented, for all iteration
   orders and every response, if and only if the error's header map is clean and no name is in both;
   otherwise the error's replace the rule's.
   */
  lemma AsHeadersAddedIff(canon: Canon, rule: Rule, err: seq<Link>, some: Order)
    requires Idempotent(canon) && Enumerating(some) && rule.As? && Handles(rule, err) && Valid(canon, rule.header)
    ensures var m := HeadersFor(Matched(rule.kind, err));
            (forall order, order', w | Enumerating(order) && Enumerating(order') ::
               AddsHeaders(canon, order, order', rule, err, w))
            <==> Clean(canon, m) && forall k | k in m :: Lookup(rule.header, canon(k)) == []
  {
    var m, own := HeadersFor(Matched(rule.kind, err)), rule.header;
    hide RuleOutcome, HeadersFor, Documented, Overwrite, Matched;
    if Clean(canon, m) && forall k | k in m :: Lookup(own, canon(k)) == [] {
      forall order, order', w | Enumerating(order) && Enumerating(order')
        ensures AddsHeaders(canon, order, order', rule, err, w)
      {
        AsHeader(canon, order', rule, err, w);
        DisjointAdds(canon, order, order', m, own, w);
      }
    } else {
      var k := Culprit(canon, m, own);
      var order' := Moved(some, m, k);
      NotAdded(canon, some, m, k, own);
      AsHeader(canon, order', rule, err, map[]);
      assert !AddsHeaders(canon, order', order', rule, err, map[]);
    }
  }

  lemma Culprit(canon: Canon, m: HeaderMap, own: seq<Field>) returns (k: string)
    requires !(Clean(canon, m) && forall k | k in m :: Lookup(own, canon(k)) == [])
    ensures k in m
    ensures || m[k] == [] || Lookup(own, canon(k)) != []
            || exists j :: j in m && j != k && canon(j) == canon(k) && m[j] != []
  {
    if x :| x in m && m[x] == [] {
      k := x;
    } else if x :| x in m && Lookup(own, canon(x)) != [] {
      k := x;
    } else {
      var j, x :| j in m.Keys && x in m.Keys && j != x && canon(j) == canon(x);
      k := x;
    }
  }

  /** A name set by both: the response has the error's value alone, where both are documented. */
  lemma HeaderReplaced(canon: Canon, order: Order, w: HeaderMap) returns (rule: Rule, err: seq<Link>)
    requires Idempotent(canon) && canon("X") == "X" && Enumerating(order)
    ensures rule.As? && rule.header == [Field("X", ["rule"])] && Handles(rule, err)
    ensures HeadersFor(Matched(rule.kind, err)) == map["X" := ["error"]]
    ensures Get(RuleOutcome(canon, order, rule, err, w).header, "X") == ["error"]
    ensures Get(Documented(canon, order, map["X" := ["error"]], rule.header, w), "X") == ["error", "rule"]
  {
    hide Overwrite, SetTo, Documented, RuleOutcome, Matched, HeadersFor, Get;
    var m: HeaderMap := map["X" := ["error"]];
    err := WithHeaders(m);
    rule := Rule.As(0, 0, [Field("X", ["rule"])], map[], true);
    AsHeader(canon, order, rule, err, w);
    ReplacedAt(canon, order, m, rule.header, w);
  }

  lemma WithHeaders(m: HeaderMap) returns (err: seq<Link>)
    ensures err != [] && 0 in err[0].types && HeadersFor(Matched(0, err)) == m
  {
    hide Matched;
    err := [Link(0, {0}, "boom", None, Some(m), None, None)];
    assert 0 in err[0].types;
    var target := Matched(0, err);
    assert |target| == 1 && err[0..] == err;
    FirstIs(err, (l: Link) => l.headers.Some?, 0);
  }

  lemma ReplacedAt(canon: Canon, order: Order, m: HeaderMap, own: seq<Field>, w: HeaderMap)
    requires Idempotent(canon) && canon("X") == "X" && Enumerating(order)
    requires m == map["X" := ["error"]] && own == [Field("X", ["rule"])]
    ensures Get(Overwrite(canon, SetTo(own, w), Listed(order, m)), "X") == ["error"]
    ensures Get(Documented(canon, order, m, own, w), "X") == ["error", "rule"]
  {
    assert Valid(canon, own) && Lookup(own, "X") == ["rule"];
    hide Overwrite, SetTo, Documented, Gather, Lookup, Valid, Listed, LastNamed;
    assert Gather(canon, Listed(order, m), "X") == m["X"] by {
      GatherListed(canon, order, m, "X");
    }
    OverwrittenAt(canon, order, m, own, w, "X");
    DocumentedAt(canon, order, m, own, w, "X");
    OnlyKeyLast(canon, order, m, "X");
  }

  lemma GatherListed(canon: Canon, order: Order, m: HeaderMap, k: string)
    requires Enumerating(order) && !Collides(canon, m.Keys) && k in m && canon(k) == k
    ensures Gather(canon, Listed(order, m), k) == m[k]
  {
    GatherKey(canon, order(m), m, k);
  }

  lemma OnlyKeyLast(canon: Canon, order: Order, m: HeaderMap, k: string)
    requires Enumerating(order) && m.Keys == {k} && canon(k) == k
    ensures var i := LastNamed(canon, Listed(order, m), k); i >= 0 && Listed(order, m)[i].values == m[k]
  {
    CleanLast(canon, order, m, k);
  }

  // ---------------------------------------------------------------- Is against the fallback

  /** The two ways of setting the headers agree for these iteration orders and this response. */
  ghost predicate HeadersAgree(canon: Canon, m: HeaderMap, order: Order, order': Order, w: HeaderMap)
    requires Enumerating(order) && Enumerating(order')
  {
    SetTo(NewHeader(canon, order, m), w) == Overwrite(canon, w, Listed(order', m))
  }

  /**
   An Is rule sets the headers that the fallback sets for the same error, for every iteration
   order and every response, if and only if the error's header map is clean.
   */
  lemma HeadersAgreeIffClean(canon: Canon, m: HeaderMap, some: Order)
    requires Idempotent(canon) && Enumerating(some)
    ensures (forall order, order', w | Enumerating(order) && Enumerating(order') ::
               HeadersAgree(canon, m, order, order', w))
            <==> Clean(canon, m)
  {
    if Clean(canon, m) {
      forall order, order', w | Enumerating(order) && Enumerating(order')
        ensures HeadersAgree(canon, m, order, order', w)
      {
        CleanAgrees(canon, order, order', m, w);
      }
    } else {
      var k := Culprit(canon, m, []);
      var order := Moved(some, m, k);
      NotAdded(canon, some, m, k, []);
      assert !HeadersAgree(canon, m, order, order, map[]);
    }
  }

  /** A bare Is rule renders its target as the fallback does, if the target's header map is clean. */
  lemma IsIsFallback(canon: Canon, order: Order, order': Order, target: seq<Link>, disableBody: bool, w: HeaderMap)
    requires Idempotent(canon) && Enumerating(order) && Enumerating(order') && target != []
    requires !FallbackFields(target).panicked && Clean(canon, HeadersFor(target))
    ensures IsOutcome(BareIs(canon, order, target, disableBody), w) == Fallback(canon, order', disableBody, target, w)
  {
    CleanAgrees(canon, order, order', HeadersFor(target), w);
  }

  // ---------------------------------------------------------------- *Error in the encoder

  /** An *Error as a link, whose fields come in the given order. */
  function LinkOf(id: nat, types: set<nat>, text: string, e: Error, order: seq<string>): Link
    requires forall i | 0 <= i < |order| :: order[i] in e.fields
  {
    Link(id, types, text, Some(StatusOr500(e.code)), Some(e.header), Some(e.cause), Some(ErrorItems(e, order)))
  }

  /** A link with none of the optional interfaces. */
  predicate Mute(l: Link) {
    l.status == None && l.headers == None && l.cause == None && l.fields == None
  }

  lemma {:induction false} FirstIs(err: seq<Link>, fits: Link -> bool, k: nat)
    requires k < |err| && fits(err[k]) && forall i | 0 <= i < k :: !fits(err[i])
    ensures First(err, fits) == k
  {
    if k > 0 {
      FirstIs(err[1..], fits, k - 1);
    }
  }

  /**
   An *Error, however deep under errors without optional interfaces and whatever it wraps, is
   rendered by the fallback with its own status and headers, and the body is the field map
   that MarshalJSON builds, for every iteration order of its fields.
   */
  lemma ErrorRendersAsItMarshals(canon: Canon, order: Order, err: seq<Link>, k: nat, e: Error, fieldOrder: seq<string>,
                                 w: HeaderMap)
    requires Enumerating(order) && k < |err| && forall i | 0 <= i < k :: Mute(err[i])
    requires Enumerates(fieldOrder, e.fields.Keys) && forall i | 0 <= i < |fieldOrder| :: fieldOrder[i] in e.fields
    requires err[k] == LinkOf(err[k].id, err[k].types, err[k].text, e, fieldOrder)
    ensures Fallback(canon, order, false, err, w)
            == Rendered(if e.code >= 100 then e.code else 500, Overwrite(canon, w, Listed(order, e.header)),
                        Some(Sum(Fielded(e), false)))
  {
    FirstIs(err, (l: Link) => l.status.Some?, k);
    FirstIs(err, (l: Link) => l.headers.Some?, k);
    FirstIs(err, (l: Link) => l.cause.Some?, k);
    FirstIs(err, (l: Link) => l.fields.Some?, k);
    ErrorFieldsAgree(e, fieldOrder);
  }
}

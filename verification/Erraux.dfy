/**
 The error encoder: an ordered list of rules, of which the first that matches renders the
 error, and a fallback.  An Is rule is rendered once, when it is made; an As rule is rendered
 from the matched error each time.

 An error is the finite chain of itself and what it unwraps to.  Each link may or may not
 implement the optional interfaces; errors.Is and errors.As take the first link that fits.
 A response is its header map and the calls made on the writer; a body is the field map it
 is the JSON of.  CanonicalHeaderKey and the iteration order of maps are parameters.
 */
module Erraux {
  import opened Sequences
  import opened HeaderSpec
  import opened HeaderAlgebra
  import opened ErrauxFields
  import opened Options

  /** `id` is the identity of the error value, `types` the types and interfaces it can be assigned to. */
  datatype Link = Link(id: nat, types: set<nat>, text: string, status: Option<int>, headers: Option<HeaderMap>,
                       cause: Option<string>, fields: Option<seq<Value>>)

  /** An iteration order for each header map. */
  type Order = HeaderMap -> seq<string>

  ghost predicate Enumerating(order: Order) {
    forall m: HeaderMap :: ListsKeys(order(m), m)
  }

  ghost predicate ListsKeys(keys: seq<string>, m: HeaderMap) {
    Enumerates(keys, m.Keys) && forall i | 0 <= i < |keys| :: keys[i] in m
  }

  /** The names and values of a header map, as one iteration gives them. */
  function Listed(order: Order, m: HeaderMap): seq<Field>
    requires Enumerating(order)
  {
    assert ListsKeys(order(m), m);
    Items(order(m), m)
  }

  // ---------------------------------------------------------------- errors.As and errors.Is

  /** The first link that fits, or the length of the chain. */
  function First(err: seq<Link>, fits: Link -> bool): (k: nat)
    ensures k <= |err|
    ensures forall i | 0 <= i < k :: !fits(err[i])
    ensures k < |err| ==> fits(err[k])
  {
    if err == [] || fits(err[0]) then 0 else 1 + First(err[1..], fits)
  }

  function StatusCodeFor(err: seq<Link>): int {
    var k := First(err, (l: Link) => l.status.Some?);
    StatusOr500(if k < |err| then err[k].status.value else 0)
  }

  function HeadersFor(err: seq<Link>): HeaderMap {
    var k := First(err, (l: Link) => l.headers.Some?);
    if k < |err| then err[k].headers.value else map[]
  }

  function CauseFor(err: seq<Link>): string
    requires err != []
  {
    var k := First(err, (l: Link) => l.cause.Some?);
    if k < |err| then err[k].cause.value else err[0].text
  }

  function FieldsFor(err: seq<Link>): seq<Value> {
    var k := First(err, (l: Link) => l.fields.Some?);
    if k < |err| then err[k].fields.value else []
  }

  // ---------------------------------------------------------------- rules and responses

  /** A rule once it has been added to an encoder. */
  datatype Rule =
    | Is(target: nat, status: int, header: seq<Field>, body: Option<FieldMap>)
    | As(kind: nat, status: int, header: seq<Field>, fields: FieldMap, disableBody: bool)

  datatype Encoder = Encoder(rules: seq<Rule>, disableBody: bool)

  datatype Call = Head(status: int, header: HeaderMap) | Body(fields: FieldMap)

  /** How a response is rendered: the headers, the calls on the writer, and whether it ends in a panic. */
  datatype Outcome = Outcome(header: HeaderMap, calls: seq<Call>, panicked: bool)

  predicate Handles(rule: Rule, err: seq<Link>) {
    match rule
    case Is(target, _, _, _) => exists i | 0 <= i < |err| :: err[i].id == target
    case As(kind, _, _, _, _) => exists i | 0 <= i < |err| :: kind in err[i].types
  }

  /** The error that an As rule finds: the first link of the type, and what it unwraps to. */
  function Matched(kind: nat, err: seq<Link>): (target: seq<Link>)
    requires exists i | 0 <= i < |err| :: kind in err[i].types
    ensures target != [] && kind in target[0].types
    ensures |target| <= |err| && target == err[|err| - |target|..]
    ensures forall i | 0 <= i < |err| - |target| :: kind !in err[i].types
  {
    err[First(err, (l: Link) => kind in l.types)..]
  }

  /** Canonicalize each name and set it, in turn. */
  function Overwrite(canon: Canon, w: HeaderMap, items: seq<Field>): HeaderMap {
    if items == [] then w
    else
      var n := |items| - 1;
      Overwrite(canon, w, items[..n])[canon(items[n].name) := items[n].values]
  }

  /** Write the header, then a body if there is one; a panic in building the body comes in between. */
  function Rendered(status: int, header: HeaderMap, body: Option<Sum>): Outcome {
    match body
    case None => Outcome(header, [Head(status, header)], false)
    case Some(sum) =>
      if sum.panicked then Outcome(header, [Head(status, header)], true)
      else Outcome(header, [Head(status, header), Body(sum.fields)], false)
  }

  /** What an As rule makes of the matched error. */
  function AsOutcome(canon: Canon, order: Order, rule: Rule, target: seq<Link>, w: HeaderMap): Outcome
    requires rule.As? && target != [] && Enumerating(order)
  {
    var headers := HeadersFor(target);
    var status := if rule.status < 100 then StatusCodeFor(target) else rule.status;
    Rendered(status, Overwrite(canon, SetTo(rule.header, w), Listed(order, headers)),
             AsBody(rule, target, status))
  }

  function AsBody(rule: Rule, target: seq<Link>, status: int): Option<Sum>
    requires rule.As? && target != []
  {
    if rule.disableBody then None else Some(AsFields(rule, target, status))
  }

  function AsFields(rule: Rule, target: seq<Link>, status: int): Sum
    requires rule.As? && target != []
  {
    var coded := rule.fields[CODE := Number(status)];
    Added(if CAUSE in rule.fields then coded else coded[CAUSE := Text(CauseFor(target))], FieldsFor(target))
  }

  function IsOutcome(rule: Rule, w: HeaderMap): Outcome
    requires rule.Is?
  {
    Rendered(rule.status, SetTo(rule.header, w),
             match rule.body case None => None case Some(fields) => Some(Sum(fields, false)))
  }

  function Fallback(canon: Canon, order: Order, disableBody: bool, err: seq<Link>, w: HeaderMap): Outcome
    requires err != [] && Enumerating(order)
  {
    var headers, status := HeadersFor(err), StatusCodeFor(err);
    Rendered(status, Overwrite(canon, w, Listed(order, headers)),
             if disableBody then None else Some(FallbackFields(err)))
  }

  function FallbackFields(err: seq<Link>): Sum
    requires err != []
  {
    Added(map[CODE := Number(StatusCodeFor(err)), CAUSE := Text(CauseFor(err))], FieldsFor(err))
  }

  /** What a rule makes of an error that it handles. */
  function RuleOutcome(canon: Canon, order: Order, rule: Rule, err: seq<Link>, w: HeaderMap): Outcome
    requires Handles(rule, err) && Enumerating(order)
  {
    if rule.Is? then IsOutcome(rule, w) else AsOutcome(canon, order, rule, Matched(rule.kind, err), w)
  }

  /** The first rule that handles the error, or the number of rules. */
  function Chosen(rules: seq<Rule>, err: seq<Link>): (k: nat)
    ensures k <= |rules|
    ensures forall i | 0 <= i < k :: !Handles(rules[i], err)
    ensures k < |rules| ==> Handles(rules[k], err)
  {
    if rules == [] || Handles(rules[0], err) then 0 else 1 + Chosen(rules[1..], err)
  }

  /** The whole response to an error: the first rule that handles it, on the headers as given. */
  ghost function Encoded(canon: Canon, order: Order, e: Encoder, err: seq<Link>, w: HeaderMap): Outcome
    requires err != [] && Enumerating(order)
  {
    var w' := w[canon("Content-Type") := ["application/json"]];
    var k := Chosen(e.rules, err);
    if k == |e.rules| then Fallback(canon, order, e.disableBody, err, w')
    else RuleOutcome(canon, order, e.rules[k], err, w')
  }

  // ---------------------------------------------------------------- Encode

  class ResponseWriter {
    var header: HeaderMap
    var calls: seq<Call>

    method WriteHeader(status: int)
      modifies this
      ensures header == old(header) && calls == old(calls) + [Head(status, header)]
    {
      calls := calls + [Head(status, header)];
    }

    method Write(fields: FieldMap)
      modifies this
      ensures header == old(header) && calls == old(calls) + [Body(fields)]
    {
      calls := calls + [Body(fields)];
    }

    method SetHeaders(canon: Canon, order: Order, headers: HeaderMap)
      requires Enumerating(order)
      modifies this
      ensures header == Overwrite(canon, old(header), Listed(order, headers)) && calls == old(calls)
    {
      var keys := order(headers);
      ghost var items := Listed(order, headers);
      for i := 0 to |keys|
        invariant header == Overwrite(canon, old(header), items[..i]) && calls == old(calls)
      {
        assert items[..i + 1][..i] == items[..i];
        header := header[canon(keys[i]) := headers[keys[i]]];
      }
      assert items[..|keys|] == items;
    }

    method SetEach(es: seq<Field>)
      modifies this
      ensures header == SetTo(es, old(header)) && calls == old(calls)
    {
      for i := 0 to |es|
        invariant header == SetTo(es[..i], old(header)) && calls == old(calls)
      {
        OneFieldMore(es, i, old(header));
        header := header[es[i].name := es[i].values];
      }
      assert es[..|es|] == es;
    }
  }

  /** Whether the writer now holds the outcome, which started from `calls`. */
  ghost predicate Shows(rw: ResponseWriter, calls: seq<Call>, out: Outcome, ok: bool)
    reads rw
  {
    rw.header == out.header && rw.calls == calls + out.calls && ok == !out.panicked
  }

  method EncodeIs(rule: Rule, err: seq<Link>, rw: ResponseWriter) returns (handled: bool, ok: bool)
    requires rule.Is?
    modifies rw
    ensures handled <==> Handles(rule, err)
    ensures if handled then Shows(rw, old(rw.calls), IsOutcome(rule, old(rw.header)), ok)
            else ok && rw.header == old(rw.header) && rw.calls == old(rw.calls)
  {
    handled, ok := exists i | 0 <= i < |err| :: err[i].id == rule.target, true;
    if handled {
      rw.SetEach(rule.header);
      rw.WriteHeader(rule.status);
      if rule.body.Some? {
        rw.Write(rule.body.value);
      }
    }
  }

  /** The matched error, if any, with its headers and status written. */
  method EncodeStatusAndHeaders(canon: Canon, order: Order, rule: Rule, err: seq<Link>, rw: ResponseWriter)
    returns (target: seq<Link>, statusCode: int, handled: bool)
    requires rule.As? && Enumerating(order)
    modifies rw
    ensures handled <==> Handles(rule, err)
    ensures if handled
            then
              && target == Matched(rule.kind, err)
              && statusCode == (if rule.status < 100 then StatusCodeFor(target) else rule.status)
              && rw.header == Overwrite(canon, SetTo(rule.header, old(rw.header)),
                                        Listed(order, HeadersFor(target)))
              && rw.calls == old(rw.calls) + [Head(statusCode, rw.header)]
            else rw.header == old(rw.header) && rw.calls == old(rw.calls)
  {
    handled, target, statusCode := exists i | 0 <= i < |err| :: rule.kind in err[i].types, [], 0;
    if handled {
      target := Matched(rule.kind, err);
      rw.SetEach(rule.header);
      rw.SetHeaders(canon, order, HeadersFor(target));
      statusCode := rule.status;
      if statusCode < 100 {
        statusCode := StatusCodeFor(target);
      }
      rw.WriteHeader(statusCode);
    }
  }

  /** The fields of an As rule for the matched error; the rule's own are copied, not changed. */
  method RenderFields(rule: Rule, target: seq<Link>, statusCode: int) returns (body: FieldMap, ok: bool)
    requires rule.As? && target != []
    ensures Sum(body, !ok) == AsFields(rule, target, statusCode)
  {
    var own := new Fields.Empty();
    own.m := rule.fields;
    var fields := own.Clone();
    fields.SetCode(statusCode);
    var has := fields.HasCause();
    if !has {
      fields.SetCause(CauseFor(target));
    }
    ok := fields.Add(FieldsFor(target));
    body := fields.m;
  }

  method EncodeAs(canon: Canon, order: Order, rule: Rule, err: seq<Link>, rw: ResponseWriter)
    returns (handled: bool, ok: bool)
    requires rule.As? && Enumerating(order)
    modifies rw
    ensures handled <==> Handles(rule, err)
    ensures if handled
            then Shows(rw, old(rw.calls), AsOutcome(canon, order, rule, Matched(rule.kind, err), old(rw.header)), ok)
            else ok && rw.header == old(rw.header) && rw.calls == old(rw.calls)
  {
    var target, statusCode;
    target, statusCode, handled := EncodeStatusAndHeaders(canon, order, rule, err, rw);
    ok := true;
    if handled {
      ok := WriteFields(rule, target, statusCode, rw);
      AsOutcomeIs(canon, order, rule, target, old(rw.header), statusCode);
      ghost var later := Rendered(statusCode, rw.header, AsBody(rule, target, statusCode)).calls[1..];
      Associative(old(rw.calls), [Head(statusCode, rw.header)], later);
    }
  }

  /** The body of an As rule, unless it is disabled. */
  method WriteFields(rule: Rule, target: seq<Link>, statusCode: int, rw: ResponseWriter) returns (ok: bool)
    requires rule.As? && target != []
    modifies rw
    ensures rw.header == old(rw.header)
    ensures var out := Rendered(statusCode, rw.header, AsBody(rule, target, statusCode));
            old(rw.calls) + out.calls[1..] == rw.calls && ok == !out.panicked
  {
    ok := true;
    if !rule.disableBody {
      var body;
      body, ok := RenderFields(rule, target, statusCode);
      if ok {
        rw.Write(body);
      }
    }
  }

  lemma AsOutcomeIs(canon: Canon, order: Order, rule: Rule, target: seq<Link>, w: HeaderMap, status: int)
    requires rule.As? && target != [] && Enumerating(order)
    requires status == if rule.status < 100 then StatusCodeFor(target) else rule.status
    ensures var header := Overwrite(canon, SetTo(rule.header, w), Listed(order, HeadersFor(target)));
            var out := Rendered(status, header, AsBody(rule, target, status));
            && AsOutcome(canon, order, rule, target, w) == out && out.header == header
            && out.calls == [Head(status, header)] + out.calls[1..]
  {
  }

  /** Try a rule: render the error if the rule handles it, and else leave the response as it was. */
  method Try(canon: Canon, order: Order, rule: Rule, err: seq<Link>, rw: ResponseWriter)
    returns (handled: bool, ok: bool)
    requires Enumerating(order)
    modifies rw
    ensures handled <==> Handles(rule, err)
    ensures if handled then Shows(rw, old(rw.calls), RuleOutcome(canon, order, rule, err, old(rw.header)), ok)
            else ok && rw.header == old(rw.header) && rw.calls == old(rw.calls)
  {
    if rule.Is? {
      handled, ok := EncodeIs(rule, err, rw);
    } else {
      handled, ok := EncodeAs(canon, order, rule, err, rw);
    }
  }

  /** What Encode does when no rule handles the error. */
  method EncodeFallback(canon: Canon, order: Order, disableBody: bool, err: seq<Link>, rw: ResponseWriter)
    returns (ok: bool)
    requires err != [] && Enumerating(order)
    modifies rw
    ensures Shows(rw, old(rw.calls), Fallback(canon, order, disableBody, err, old(rw.header)), ok)
  {
    rw.SetHeaders(canon, order, HeadersFor(err));
    var statusCode := StatusCodeFor(err);
    rw.WriteHeader(statusCode);
    ok := true;
    if !disableBody {
      var fields := new Fields(statusCode, CauseFor(err));
      ok := fields.Add(FieldsFor(err));
      if ok {
        rw.Write(fields.m);
      }
    }
  }

  /**
   Encode; `ok` is false when it panics.  A rule that does not handle the error leaves the
   response as it was.
   */
  method Encode(canon: Canon, order: Order, e: Encoder, err: seq<Link>, rw: ResponseWriter) returns (ok: bool)
    requires err != [] && Enumerating(order)
    modifies rw
    ensures Shows(rw, old(rw.calls), Encoded(canon, order, e, err, old(rw.header)), ok)
  {
    hide RuleOutcome, Fallback, Handles, Chosen;
    rw.header := rw.header[canon("Content-Type") := ["application/json"]];
    ghost var w := rw.header;
    for i := 0 to |e.rules|
      invariant i <= Chosen(e.rules, err)
      invariant rw.header == w && rw.calls == old(rw.calls)
    {
      var handled;
      handled, ok := Try(canon, order, e.rules[i], err, rw);
      if handled {
        return;
      }
    }
    ok := EncodeFallback(canon, order, e.disableBody, err, rw);
  }
}

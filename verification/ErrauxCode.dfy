/**
 The code field of an error's JSON, which is documented to be the status written.  What a caller
 sets on an Is rule, in any number of calls and any order, and what errors supply as fields decide
 together whether it is.
 */
module ErrauxCode {
  import opened Options

  import opened Erraux
  import opened ErrauxFields
  import opened ErrauxRules
  import opened HeaderAlgebra
  import opened HeaderSpec

  // ---------------------------------------------------------------- setting up an Is rule

  /** A call on an Is rule. */
  datatype Setting =
    | StatusCode(c: int)
    | Cause(v: string)
    | Headers(names: seq<string>)
    | MoreFields(items: seq<Value>)

  /** An Is rule after some calls; once one has panicked there is no rule. */
  datatype Draft = Draft(status: int, header: seq<Field>, fields: FieldMap, panicked: bool)

  function Start(canon: Canon, order: Order, target: seq<Link>): Draft
    requires target != [] && Enumerating(order)
  {
    var sum := FallbackFields(target);
    Draft(StatusCodeFor(target), NewHeader(canon, order, HeadersFor(target)), sum.fields, sum.panicked)
  }

  function Apply(canon: Canon, d: Draft, setting: Setting): Draft {
    if d.panicked then d
    else
      match setting
      case StatusCode(c) => d.(status := c, fields := d.fields[CODE := Number(c)])
      case Cause(v) => d.(fields := d.fields[CAUSE := Text(v)])
      case Headers(names) => d.(header := AddAll(canon, d.header, Pairs(names)))
      case MoreFields(items) =>
        var sum := Added(d.fields, items);
        d.(fields := sum.fields, panicked := sum.panicked)
  }

  function ApplyAll(canon: Canon, d: Draft, settings: seq<Setting>): Draft {
    if settings == [] then d
    else
      var n := |settings| - 1;
      Apply(canon, ApplyAll(canon, d, settings[..n]), settings[n])
  }

  lemma OneSetting(canon: Canon, d: Draft, setting: Setting)
    ensures ApplyAll(canon, d, [setting]) == Apply(canon, d, setting)
  {
    assert [setting][..0] == [];
    assert ApplyAll(canon, d, []) == d;
  }

  /** The rule as it is compiled. */
  function RuleOf(target: seq<Link>, d: Draft, disableBody: bool): Rule
    requires target != []
  {
    Rule.Is(target[0].id, d.status, d.header, if disableBody then None else Some(d.fields))
  }

  /** Is, and then the calls; `ie` is null if one of them panics. */
  method Configure(canon: Canon, order: Order, target: seq<Link>, settings: seq<Setting>) returns (ie: IsEncoder?)
    requires target != [] && Enumerating(order)
    ensures ie == null <==> ApplyAll(canon, Start(canon, order, target), settings).panicked
    ensures ie != null ==> fresh(ie) && ie.target == target
    ensures ie != null ==>
              forall disableBody ::
                ie.Compiled(disableBody)
                == RuleOf(target, ApplyAll(canon, Start(canon, order, target), settings), disableBody)
  {
    var rule, ok := NewIs(canon, order, target);
    ghost var start := Start(canon, order, target);
    assert rule.Compiled(false) == BareIs(canon, order, target, false);
    for i := 0 to |settings|
      invariant fresh(rule) && fresh(rule.fields) && rule.target == target
      invariant ok == !ApplyAll(canon, start, settings[..i]).panicked
      invariant ok ==> rule.Compiled(false) == RuleOf(target, ApplyAll(canon, start, settings[..i]), false)
    {
      assert settings[..i + 1][..i] == settings[..i];
      if ok {
        ok := Set(canon, rule, settings[i], ApplyAll(canon, start, settings[..i]));
      }
    }
    assert settings[..|settings|] == settings;
    ie := if ok then rule else null;
  }

  method Set(canon: Canon, ie: IsEncoder, setting: Setting, ghost d: Draft) returns (ok: bool)
    requires ie.target != [] && !d.panicked && ie.Compiled(false) == RuleOf(ie.target, d, false)
    modifies ie, ie.fields
    ensures ok == !Apply(canon, d, setting).panicked
    ensures ok ==> ie.Compiled(false) == RuleOf(ie.target, Apply(canon, d, setting), false)
  {
    ok := true;
    match setting {
      case StatusCode(c) => ie.StatusCode(c);
      case Cause(v) => ie.Cause(v);
      case Headers(names) => ie.Headers(canon, names);
      case MoreFields(items) => ok := ie.AddFields(items);
    }
  }

  /** The header of an Is rule is valid after any calls. */
  lemma {:induction false} DraftValid(canon: Canon, order: Order, target: seq<Link>, settings: seq<Setting>)
    requires target != [] && Enumerating(order) && Idempotent(canon)
    ensures Valid(canon, ApplyAll(canon, Start(canon, order, target), settings).header)
  {
    if settings == [] {
      AddAllValid(canon, [], Listed(order, HeadersFor(target)));
    } else {
      var n := |settings| - 1;
      DraftValid(canon, order, target, settings[..n]);
      var d := ApplyAll(canon, Start(canon, order, target), settings[..n]);
      if settings[n].Headers? {
        AddAllValid(canon, d.header, Pairs(settings[n].names));
      }
    }
  }

  // ---------------------------------------------------------------- where the code comes from

  /** What wrote the code field last: a status code, or a field of that name. */
  datatype Source = FromStatus | FromField(value: Value)

  /** What items write to the code field, if anything. */
  function FromItems(items: seq<Value>, otherwise: Source): Source {
    var i := Last(items, CODE);
    if i < 0 then otherwise else FromField(if i + 1 < |items| then items[i + 1] else Null)
  }

  /** The last of the target's own fields and the calls that write the code. */
  function LastSource(target: seq<Link>, settings: seq<Setting>): Source {
    if settings == [] then FromItems(FieldsFor(target), FromStatus)
    else
      var n := |settings| - 1;
      match settings[n]
      case StatusCode(_) => FromStatus
      case MoreFields(items) => FromItems(items, LastSource(target, settings[..n]))
      case _ => LastSource(target, settings[..n])
  }

  /** The status set last, or the target's own. */
  function LastStatus(target: seq<Link>, settings: seq<Setting>): int {
    if settings == [] then StatusCodeFor(target)
    else
      var n := |settings| - 1;
      if settings[n].StatusCode? then settings[n].c else LastStatus(target, settings[..n])
  }

  /** The value of the code field, given what wrote it last. */
  function CodeValue(source: Source, status: int): Value {
    if source.FromStatus? then Number(status) else source.value
  }

  lemma AddedCode(f: FieldMap, items: seq<Value>, source: Source, status: int)
    requires !Added(f, items).panicked && CODE in f && f[CODE] == CodeValue(source, status)
    ensures var g := Added(f, items).fields; CODE in g && g[CODE] == CodeValue(FromItems(items, source), status)
  {
    AddedMeans(f, items, CODE);
  }

  /** The status and the code field of an Is rule, after any calls. */
  lemma {:induction false} DraftCode(canon: Canon, order: Order, target: seq<Link>, settings: seq<Setting>)
    requires target != [] && Enumerating(order)
    requires !ApplyAll(canon, Start(canon, order, target), settings).panicked
    ensures var d := ApplyAll(canon, Start(canon, order, target), settings);
            && d.status == LastStatus(target, settings)
            && CODE in d.fields && d.fields[CODE] == CodeValue(LastSource(target, settings), d.status)
  {
    if settings == [] {
      FallbackCode(target);
    } else {
      var n := |settings| - 1;
      DraftCode(canon, order, target, settings[..n]);
      if settings[n].MoreFields? {
        var d := ApplyAll(canon, Start(canon, order, target), settings[..n]);
        AddedCode(d.fields, settings[n].items, LastSource(target, settings[..n]), d.status);
      }
    }
  }

  lemma FallbackCode(err: seq<Link>)
    requires err != [] && !FallbackFields(err).panicked
    ensures var f := FallbackFields(err).fields;
            CODE in f && f[CODE] == CodeValue(FromItems(FieldsFor(err), FromStatus), StatusCodeFor(err))
  {
    AddedCode(map[CODE := Number(StatusCodeFor(err)), CAUSE := Text(CauseFor(err))], FieldsFor(err), FromStatus,
              StatusCodeFor(err));
  }

  lemma AsCode(rule: Rule, target: seq<Link>, status: int)
    requires rule.As? && target != [] && !AsFields(rule, target, status).panicked
    ensures var f := AsFields(rule, target, status).fields;
            CODE in f && f[CODE] == CodeValue(FromItems(FieldsFor(target), FromStatus), status)
  {
    var coded := rule.fields[CODE := Number(status)];
    AddedCode(if CAUSE in rule.fields then coded else coded[CAUSE := Text(CauseFor(target))], FieldsFor(target),
              FromStatus, status);
  }

  // ---------------------------------------------------------------- over Encode

  /** How an Is rule was made. */
  datatype Making = Making(order: Order, target: seq<Link>, settings: seq<Setting>)

  ghost predicate MadeBy(canon: Canon, rule: Rule, m: Making) {
    && m.target != [] && Enumerating(m.order)
    && var d := ApplyAll(canon, Start(canon, m.order, m.target), m.settings);
       !d.panicked && rule == RuleOf(m.target, d, rule.Is? && rule.body == None)
  }

  /**
   What wrote the code field of the response last: for an Is rule, the last of its calls and of the
   target's fields that did; else the fields of the error that is rendered, if one is so named.
   */
  function SourceAt(e: Encoder, err: seq<Link>, m: Making): Source {
    var k := Chosen(e.rules, err);
    if k == |e.rules| then FromItems(FieldsFor(err), FromStatus)
    else if e.rules[k].Is? then LastSource(m.target, m.settings)
    else FromItems(FieldsFor(Matched(e.rules[k].kind, err)), FromStatus)
  }

  /** The code field of a response with a body. */
  ghost predicate HasCode(out: Outcome, source: Source) {
    && |out.calls| == 2 && out.calls[0].Head? && out.calls[1].Body? && CODE in out.calls[1].fields
    && out.calls[1].fields[CODE] == CodeValue(source, out.calls[0].status)
  }

  lemma RuleCode(canon: Canon, order: Order, rule: Rule, err: seq<Link>, w: HeaderMap, m: Making)
    requires Handles(rule, err) && Enumerating(order) && (rule.Is? ==> MadeBy(canon, rule, m))
    requires |RuleOutcome(canon, order, rule, err, w).calls| == 2
    ensures HasCode(RuleOutcome(canon, order, rule, err, w),
                    if rule.Is? then LastSource(m.target, m.settings)
                    else FromItems(FieldsFor(Matched(rule.kind, err)), FromStatus))
  {
    hide Added, Overwrite, SetTo, FallbackFields, Listed, AddAll;
    if rule.Is? {
      DraftCode(canon, m.order, m.target, m.settings);
    } else {
      var target := Matched(rule.kind, err);
      AsCode(rule, target, if rule.status < 100 then StatusCodeFor(target) else rule.status);
    }
  }

  /**
   The code in the body is the status written, as documented, if and only if the code field was
   written last by a status code, or by a field that holds that very status.
   */
  lemma CodeIsStatusIff(canon: Canon, order: Order, e: Encoder, err: seq<Link>, w: HeaderMap, m: Making)
    requires err != [] && Enumerating(order) && |Encoded(canon, order, e, err, w).calls| == 2
    requires var k := Chosen(e.rules, err); k < |e.rules| && e.rules[k].Is? ==> MadeBy(canon, e.rules[k], m)
    ensures var out := Encoded(canon, order, e, err, w);
            && out.calls[0].Head? && out.calls[1].Body? && CODE in out.calls[1].fields
            && (out.calls[1].fields[CODE] == Number(out.calls[0].status) <==>
                match SourceAt(e, err, m)
                case FromStatus => true
                case FromField(value) => value == Number(SourceOf(e, err).status))
  {
    hide RuleOutcome, Added, Overwrite, SetTo, Listed, AddAll, MadeBy, RuleSource;
    var w', k := w[canon("Content-Type") := ["application/json"]], Chosen(e.rules, err);
    if k < |e.rules| {
      RuleCode(canon, order, e.rules[k], err, w', m);
      RuleSetBy(canon, order, e.rules[k], err, w');
    } else {
      FallbackCode(err);
    }
  }

  /** An error without fields, under Is with a field named "code": the status is 500 and the code 7. */
  lemma StaleCode(canon: Canon, order: Order, w: HeaderMap) returns (e: Encoder, err: seq<Link>, m: Making)
    requires Enumerating(order)
    ensures FieldsFor(err) == [] && m == Making(order, err, [MoreFields([Text(CODE), Number(7)])])
    ensures |e.rules| == 1 && Chosen(e.rules, err) == 0 && MadeBy(canon, e.rules[0], m) && err != []
    ensures var out := Encoded(canon, order, e, err, w);
            && |out.calls| == 2 && out.calls[0].Head? && out.calls[0].status == 500
            && out.calls[1].Body? && CODE in out.calls[1].fields && out.calls[1].fields[CODE] == Number(7)
  {
    err := [Link(0, {}, "boom", None, None, None, None)];
    var settings := [MoreFields([Text(CODE), Number(7)])];
    m := Making(order, err, settings);
    var d := StaleDraft(canon, order, err);
    e := Encoder([RuleOf(err, d, false)], false);
    hide Start, ApplyAll, Apply, SetTo, StatusCodeFor, FieldsFor;
    assert err[0].id == 0;
    assert Handles(e.rules[0], err);
    assert MadeBy(canon, e.rules[0], m);
  }

  lemma StaleDraft(canon: Canon, order: Order, err: seq<Link>) returns (d: Draft)
    requires Enumerating(order) && err == [Link(0, {}, "boom", None, None, None, None)]
    ensures FieldsFor(err) == [] && !d.panicked && d.status == 500 && CODE in d.fields && d.fields[CODE] == Number(7)
    ensures d == ApplyAll(canon, Start(canon, order, err), [MoreFields([Text(CODE), Number(7)])])
  {
    hide NewHeader;
    var start, settings := Start(canon, order, err), [MoreFields([Text(CODE), Number(7)])];
    assert FieldsFor(err) == [] && !start.panicked && start.status == 500;
    OneSetting(canon, start, settings[0]);
    d := ApplyAll(canon, start, settings);
    assert settings[0].items[2..] == [];
    assert Added(start.fields, settings[0].items) == Sum(start.fields[CODE := Number(7)], false);
  }
}

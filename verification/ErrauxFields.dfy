/**
 The JSON fields of an error: a map that is changed in place, its flattening to a list of
 names and values, and the two ways in which an *Error is turned into fields.

 The iteration order of a map is any order that lists each key once.
 */
module ErrauxFields {
  import opened HeaderAlgebra
  import opened Sequences

  /** A value of any type, as far as the fields care. */
  datatype Value = Number(n: int) | Text(s: string) | Null | Opaque(id: nat)

  type FieldMap = map<string, Value>

  const CODE := "code"
  const CAUSE := "cause"
  const MESSAGE := "message"

  /** A status code below 100 counts as an internal server error. */
  function StatusOr500(code: int): int {
    if code < 100 then 500 else code
  }

  // ---------------------------------------------------------------- Add and Append as functions

  /** The fields after Add, or where it stopped with a panic because a name was not a string. */
  datatype Sum = Sum(fields: FieldMap, panicked: bool)

  function Added(f: FieldMap, items: seq<Value>): Sum
    decreases |items|
  {
    if items == [] then Sum(f, false)
    else if !items[0].Text? then Sum(f, true)
    else if |items| == 1 then Sum(f[items[0].s := Null], false)
    else Added(f[items[0].s := items[1]], items[2..])
  }

  function Flattened(order: seq<string>, f: FieldMap): seq<Value>
    requires forall i | 0 <= i < |order| :: order[i] in f
  {
    if order == [] then [] else [Text(order[0]), f[order[0]]] + Flattened(order[1..], f)
  }

  /** Add panics exactly when some name is not a string. */
  lemma {:induction false} AddedPanics(f: FieldMap, items: seq<Value>)
    ensures Added(f, items).panicked <==> exists i | 0 <= i < |items| && i % 2 == 0 :: !items[i].Text?
    decreases |items|
  {
    if |items| > 1 && items[0].Text? {
      AddedPanics(f[items[0].s := items[1]], items[2..]);
      if i :| 0 <= i < |items| && i % 2 == 0 && !items[i].Text? {
        assert !items[2..][i - 2].Text?;
      }
      if i :| 0 <= i < |items[2..]| && i % 2 == 0 && !items[2..][i].Text? {
        assert !items[i + 2].Text?;
      }
    }
  }

  /** The last value given to a name, if any. */
  function Last(items: seq<Value>, name: string): (i: int)
    ensures -1 <= i < |items| && (i >= 0 ==> i % 2 == 0 && items[i] == Text(name))
    ensures forall j | i < j < |items| && j % 2 == 0 :: items[j] != Text(name)
    decreases |items|
  {
    if items == [] then -1
    else if |items| == 1 then (if items[0] == Text(name) then 0 else -1)
    else
      var i := Last(items[2..], name);
      assert forall j {:trigger items[j]} | 2 <= j < |items| :: items[j] == items[2..][j - 2];
      if i >= 0 then i + 2
      else if items[0] == Text(name) then 0
      else -1
  }

  /** Without a panic, each name has the last value given to it, else the value it had. */
  lemma {:induction false} AddedMeans(f: FieldMap, items: seq<Value>, name: string)
    requires !Added(f, items).panicked
    ensures var g, i := Added(f, items).fields, Last(items, name);
            && (name in g <==> name in f || i >= 0)
            && (name in g ==> g[name] == if i < 0 then f[name] else if i + 1 < |items| then items[i + 1] else Null)
    decreases |items|
  {
    if |items| > 1 {
      AddedMeans(f[items[0].s := items[1]], items[2..], name);
    }
  }

  function Restricted(f: FieldMap, names: seq<string>): FieldMap {
    map k | k in f && k in names :: f[k]
  }

  lemma {:induction false} AddedFlattened(g: FieldMap, order: seq<string>, f: FieldMap, more: seq<Value>)
    requires forall i | 0 <= i < |order| :: order[i] in f
    ensures Added(g, Flattened(order, f) + more) == Added(g + Restricted(f, order), more)
    decreases |order|
  {
    if order == [] {
      assert Flattened(order, f) + more == more;
      assert g + Restricted(f, order) == g;
    } else {
      var k, rest := order[0], order[1..];
      var items := Flattened(order, f) + more;
      Associative([Text(k), f[k]], Flattened(rest, f), more);
      assert items[0] == Text(k) && items[1] == f[k] && items[2..] == Flattened(rest, f) + more;
      AddedFlattened(g[k := f[k]], rest, f, more);
      assert g[k := f[k]] + Restricted(f, rest) == g + Restricted(f, order);
    }
  }

  /** Add takes back what Append flattened: adding a flattened map is merging it, in whatever order it was flattened. */
  lemma AddUndoesAppend(g: FieldMap, order: seq<string>, f: FieldMap)
    requires Enumerates(order, f.Keys) && forall i | 0 <= i < |order| :: order[i] in f
    ensures Added(g, Flattened(order, f)) == Sum(g + f, false)
  {
    AddedFlattened(g, order, f, []);
    assert Flattened(order, f) + [] == Flattened(order, f);
    RestrictedAll(order, f);
  }

  lemma RestrictedAll(order: seq<string>, f: FieldMap)
    requires Enumerates(order, f.Keys)
    ensures Restricted(f, order) == f
  {
    EnumeratesOnce(order, f.Keys);
  }

  // ---------------------------------------------------------------- the map, in place

  /** Choose an iteration order. */
  method Iterate(f: FieldMap) returns (order: seq<string>)
    ensures Enumerates(order, f.Keys)
    ensures forall i | 0 <= i < |order| :: order[i] in f
  {
    order := [];
    var keys := f.Keys;
    while keys != {}
      invariant keys <= f.Keys
      invariant multiset(order) == multiset(f.Keys - keys)
      decreases keys
    {
      var k :| k in keys;
      assert multiset(f.Keys - (keys - {k})) == multiset(f.Keys - keys) + multiset{k} by {
        assert f.Keys - (keys - {k}) == (f.Keys - keys) + {k};
      }
      order, keys := order + [k], keys - {k};
    }
    assert f.Keys - keys == f.Keys;
    EnumeratesOnce(order, f.Keys);
  }

  class Fields {
    var m: FieldMap

    /** NewFields. */
    constructor (code: int, cause: string)
      ensures m == map[CODE := Number(StatusOr500(code)), CAUSE := Text(cause)]
    {
      m := map[CODE := Number(if code < 100 then 500 else code), CAUSE := Text(cause)];
    }

    /** Fields{}, and the start of Clone. */
    constructor Empty()
      ensures m == map[]
    {
      m := map[];
    }

    method SetCode(code: int)
      modifies this
      ensures m == old(m)[CODE := Number(code)]
    {
      m := m[CODE := Number(code)];
    }

    method HasCause() returns (has: bool)
      ensures has <==> CAUSE in m
    {
      has := CAUSE in m;
    }

    method SetCause(cause: string)
      modifies this
      ensures m == old(m)[CAUSE := Text(cause)]
    {
      m := m[CAUSE := Text(cause)];
    }

    /** A distinct copy: what is done to it afterwards does not change this one. */
    method Clone() returns (c: Fields)
      ensures fresh(c) && c.m == m
    {
      c := new Fields.Empty();
      c.Merge(m);
      assert map[] + m == m;
    }

    method Merge(more: FieldMap)
      modifies this
      ensures m == old(m) + more
    {
      var order := Iterate(more);
      for i := 0 to |order|
        invariant m == old(m) + Restricted(more, order[..i])
      {
        m := m[order[i] := more[order[i]]];
      }
      assert order[..|order|] == order;
      RestrictedAll(order, more);
    }

    /** Add; `ok` is false when it panics, with the pairs before the bad name added. */
    method Add(items: seq<Value>) returns (ok: bool)
      modifies this
      ensures Sum(m, !ok) == Added(old(m), items)
    {
      var i, j := 0, 1;
      while i < |items|
        invariant 0 <= i && j == i + 1
        invariant i <= |items| || (i == |items| + 1 && Added(old(m), items) == Sum(m, false))
        invariant i <= |items| ==> Added(old(m), items) == Added(m, items[i..])
        decreases |items| - i
      {
        if !items[i].Text? {
          return false;
        }
        var value := Null;
        if j < |items| {
          value := items[j];
          assert items[i..][2..] == items[i + 2..];
        }
        m := m[items[i].s := value];
        i, j := i + 2, j + 2;
      }
      return true;
    }

    /** Flatten the fields onto `nav`, in the order chosen. */
    method Append(nav: seq<Value>) returns (r: seq<Value>, order: seq<string>)
      ensures Enumerates(order, m.Keys) && forall i | 0 <= i < |order| :: order[i] in m
      ensures r == nav + Flattened(order, m)
    {
      order := Iterate(m);
      r := nav;
      for i := 0 to |order|
        invariant r + Flattened(order[i..], m) == nav + Flattened(order, m)
      {
        assert order[i..][1..] == order[i + 1..];
        r := r + [Text(order[i]), m[order[i]]];
      }
    }
  }

  // ---------------------------------------------------------------- *Error

  /** An *Error; `cause` is the text of the error it wraps. */
  datatype Error = Error(cause: string, message: string, code: int, header: HeaderMap, fields: FieldMap)

  /** The field map that an *Error stands for. */
  function Fielded(e: Error): FieldMap {
    var base: FieldMap := map[CODE := Number(StatusOr500(e.code)), CAUSE := Text(e.cause)];
    var f := base + e.fields;
    if e.message != "" then f[MESSAGE := Text(e.message)] else f
  }

  function ErrorItems(e: Error, order: seq<string>): seq<Value>
    requires forall i | 0 <= i < |order| :: order[i] in e.fields
  {
    Flattened(order, e.fields) + (if e.message != "" then [Text(MESSAGE), Text(e.message)] else [])
  }

  method ErrorFields(e: Error) returns (nav: seq<Value>, order: seq<string>)
    ensures Enumerates(order, e.fields.Keys) && forall i | 0 <= i < |order| :: order[i] in e.fields
    ensures nav == ErrorItems(e, order)
  {
    var f := new Fields.Empty();
    f.m := e.fields;
    nav, order := f.Append([]);
    if |e.message| > 0 {
      nav := nav + [Text(MESSAGE), Text(e.message)];
    }
  }

  method MarshalJSON(e: Error) returns (fields: FieldMap)
    ensures fields == Fielded(e)
  {
    var f := new Fields(e.code, e.cause);
    f.Merge(e.fields);
    if |e.message| > 0 {
      f.m := f.m[MESSAGE := Text(e.message)];
    }
    fields := f.m;
  }

  /** The fields one by one: the message, then the error's own, then the code and the cause. */
  lemma FieldedMeans(e: Error, name: string)
    ensures var f := Fielded(e);
            if name == "message" && e.message != "" then name in f && f[name] == Text(e.message)
            else if name in e.fields then name in f && f[name] == e.fields[name]
            else if name == "code" then name in f && f[name] == Number(if e.code >= 100 then e.code else 500)
            else if name == "cause" then name in f && f[name] == Text(e.cause)
            else name !in f
  {
  }

  /** Adding what ErrorFields returns, for any iteration order, gives the map that MarshalJSON builds. */
  lemma ErrorFieldsAgree(e: Error, order: seq<string>)
    requires Enumerates(order, e.fields.Keys) && forall i | 0 <= i < |order| :: order[i] in e.fields
    ensures Added(map[CODE := Number(StatusOr500(e.code)), CAUSE := Text(e.cause)], ErrorItems(e, order))
            == Sum(Fielded(e), false)
  {
    var base: FieldMap := map[CODE := Number(StatusOr500(e.code)), CAUSE := Text(e.cause)];
    var more := if e.message != "" then [Text(MESSAGE), Text(e.message)] else [];
    AddedFlattened(base, order, e.fields, more);
    RestrictedAll(order, e.fields);
    if e.message != "" {
      assert more[2..] == [];
    }
  }
}

/**
 The immutable Header as a value: a list of fields, strictly sorted by canonical name,
 standing for a multimap from names to lists of values.

 The canonicalization of names (net/http's CanonicalHeaderKey) is a parameter, of which
 only idempotence is ever used.  Names are case-insensitive and the order of the values of
 one name is significant (RFC 9110, sections 5.1 and 5.3).
 */
module HeaderSpec {
  import opened Sequences

  type Canon = string -> string

  ghost predicate Idempotent(canon: Canon) {
    forall s: string {:trigger canon(canon(s))} :: canon(canon(s)) == canon(s)
  }

  datatype Field = Field(name: string, values: seq<string>)

  // ---------------------------------------------------------------- the order on names

  /** Go's order on strings. */
  predicate Less(a: string, b: string) {
    b != "" && (a == "" || a[0] < b[0] || (a[0] == b[0] && Less(a[1..], b[1..])))
  }

  lemma {:induction false} LessTransitive(a: string, b: string, c: string)
    requires Less(a, b) && Less(b, c)
    ensures Less(a, c)
  {
    if a != "" && a[0] == b[0] == c[0] {
      LessTransitive(a[1..], b[1..], c[1..]);
    }
  }

  lemma {:induction false} LessTotal(a: string, b: string)
    ensures a == b || Less(a, b) || Less(b, a)
  {
    if a != "" && b != "" && a[0] == b[0] {
      LessTotal(a[1..], b[1..]);
      assert a == [a[0]] + a[1..] && b == [b[0]] + b[1..];
    }
  }

  lemma {:induction false} LessAsymmetric(a: string, b: string)
    requires Less(a, b)
    ensures a != b && !Less(b, a)
  {
    if a != "" && a[0] == b[0] {
      LessAsymmetric(a[1..], b[1..]);
    }
  }

  // ---------------------------------------------------------------- fields

  ghost predicate Sorted(es: seq<Field>) {
    forall i, j | 0 <= i < j < |es| :: Less(es[i].name, es[j].name)
  }

  /** Strictly sorted, canonical names, no empty value lists. */
  ghost predicate Valid(canon: Canon, es: seq<Field>) {
    && Sorted(es)
    && forall i | 0 <= i < |es| :: es[i].values != [] && canon(es[i].name) == es[i].name
  }

  /** The multimap: the values of a name, in order. */
  function Lookup(es: seq<Field>, name: string): seq<string> {
    if es == [] then []
    else if es[0].name == name then es[0].values
    else Lookup(es[1..], name)
  }

  lemma {:induction false} LookupAt(es: seq<Field>, i: nat)
    requires Sorted(es) && i < |es|
    ensures Lookup(es, es[i].name) == es[i].values
  {
    if i > 0 {
      LessAsymmetric(es[0].name, es[i].name);
      LookupAt(es[1..], i - 1);
    }
  }

  lemma {:induction false} LookupAbsent(es: seq<Field>, name: string)
    requires forall i | 0 <= i < |es| :: es[i].name != name
    ensures Lookup(es, name) == []
  {
    if es != [] {
      LookupAbsent(es[1..], name);
    }
  }

  lemma {:induction false} LookupFinds(es: seq<Field>, name: string) returns (i: nat)
    requires Lookup(es, name) != []
    ensures i < |es| && es[i] == Field(name, Lookup(es, name))
  {
    if es[0].name == name {
      i := 0;
    } else {
      i := LookupFinds(es[1..], name);
      i := i + 1;
    }
  }

  lemma EmptyTogether(a: seq<Field>, b: seq<Field>)
    requires a == [] && forall i | 0 <= i < |b| :: b[i].values != []
    requires forall n :: Lookup(a, n) == Lookup(b, n)
    ensures b == []
  {
    if b != [] {
      var none := Lookup(a, b[0].name);
    }
  }

  /** A sorted list without empty entries is determined by its multimap. */
  lemma {:induction false} Unique(a: seq<Field>, b: seq<Field>)
    requires Sorted(a) && forall i | 0 <= i < |a| :: a[i].values != []
    requires Sorted(b) && forall i | 0 <= i < |b| :: b[i].values != []
    requires forall n :: Lookup(a, n) == Lookup(b, n)
    ensures a == b
  {
    if a == [] {
      EmptyTogether(a, b);
    }
    if b == [] {
      EmptyTogether(b, a);
    }
    if a != [] {
      HeadIsLeast(a, b);
      HeadIsLeast(b, a);
      LessTotal(a[0].name, b[0].name);
      assert Lookup(a, a[0].name) == Lookup(b, a[0].name);
      forall n
        ensures Lookup(a[1..], n) == Lookup(b[1..], n)
      {
        assert Lookup(a, n) == Lookup(b, n);
        if n == a[0].name {
          TailLacksHead(a);
          TailLacksHead(b);
        }
      }
      Unique(a[1..], b[1..]);
      assert a == [a[0]] + a[1..] && b == [b[0]] + b[1..];
    }
  }

  lemma TailLacksHead(es: seq<Field>)
    requires Sorted(es) && es != []
    ensures Lookup(es[1..], es[0].name) == []
  {
    forall i | 0 <= i < |es[1..]|
      ensures es[1..][i].name != es[0].name
    {
      LessAsymmetric(es[0].name, es[i + 1].name);
    }
    LookupAbsent(es[1..], es[0].name);
  }

  lemma HeadIsLeast(a: seq<Field>, b: seq<Field>)
    requires Sorted(a) && a != [] && a[0].values != [] && b != []
    requires Sorted(b) && forall n :: Lookup(a, n) == Lookup(b, n)
    ensures !Less(a[0].name, b[0].name)
  {
    assert Lookup(a, a[0].name) == Lookup(b, a[0].name) == a[0].values;
    var i := LookupFinds(b, a[0].name);
    if i > 0 {
      LessAsymmetric(b[0].name, b[i].name);
    } else if Less(a[0].name, b[0].name) {
      LessAsymmetric(a[0].name, b[0].name);
    }
  }

  // ---------------------------------------------------------------- add

  /** The least index whose name is not below the given one. */
  function Position(es: seq<Field>, name: string): (p: nat)
    ensures p <= |es|
    ensures forall i | 0 <= i < p :: Less(es[i].name, name)
    ensures p < |es| ==> !Less(es[p].name, name)
  {
    if es == [] || !Less(es[0].name, name) then 0 else 1 + Position(es[1..], name)
  }

  lemma PositionIs(es: seq<Field>, name: string, p: nat)
    requires p <= |es| && forall i | 0 <= i < p :: Less(es[i].name, name)
    requires p < |es| ==> !Less(es[p].name, name)
    ensures p == Position(es, name)
  {
    var q := Position(es, name);
  }

  /** In a sorted list, the position is found by looking at two neighbours only. */
  lemma PositionBetween(es: seq<Field>, name: string, p: nat)
    requires Sorted(es) && p <= |es|
    requires p > 0 ==> Less(es[p - 1].name, name)
    requires p < |es| ==> !Less(es[p].name, name)
    ensures p == Position(es, name)
  {
    forall k | 0 <= k < p
      ensures Less(es[k].name, name)
    {
      if k < p - 1 {
        LessTransitive(es[k].name, es[p - 1].name, name);
      }
    }
    PositionIs(es, name, p);
  }

  /** Append to the entry at `p` if it has the name, insert a new entry there if not. */
  function InsertAt(es: seq<Field>, p: nat, name: string, values: seq<string>): seq<Field>
    requires p <= |es|
  {
    if p < |es| && es[p].name == name
    then es[p := Field(name, es[p].values + values)]
    else es[..p] + [Field(name, values)] + es[p..]
  }

  function Insert(es: seq<Field>, name: string, values: seq<string>): seq<Field> {
    InsertAt(es, Position(es, name), name, values)
  }

  function Add(canon: Canon, es: seq<Field>, name: string, values: seq<string>): seq<Field> {
    if values == [] then es else Insert(es, canon(name), values)
  }

  lemma AboveFrom(es: seq<Field>, name: string, i: nat)
    requires Sorted(es) && Position(es, name) <= i < |es|
    ensures es[i].name == name || Less(name, es[i].name)
    ensures es[i].name == name ==> i == Position(es, name)
  {
    var p := Position(es, name);
    LessTotal(es[p].name, name);
    if i > p {
      if es[p].name != name {
        LessTransitive(name, es[p].name, es[i].name);
      }
      LessAsymmetric(name, es[i].name);
    }
  }

  lemma InsertSorted(es: seq<Field>, name: string, values: seq<string>)
    requires Sorted(es)
    ensures Sorted(Insert(es, name, values))
  {
    var p, r := Position(es, name), Insert(es, name, values);
    forall i, j | 0 <= i < j < |r|
      ensures Less(r[i].name, r[j].name)
    {
      if i == p && |r| > |es| {
        AboveFrom(es, name, j - 1);
      }
    }
  }

  /** What add means: the values are appended to those of the name, all others stay. */
  lemma InsertLookup(es: seq<Field>, name: string, values: seq<string>, n: string)
    requires Sorted(es)
    ensures Lookup(Insert(es, name, values), n) == Lookup(es, n) + if n == name then values else []
  {
    var p, r := Position(es, name), Insert(es, name, values);
    InsertSorted(es, name, values);
    if n == name {
      LookupAt(r, p);
      if p < |es| && es[p].name == name {
        LookupAt(es, p);
      } else {
        forall i | 0 <= i < |es|
          ensures es[i].name != name
        {
          if i < p {
            LessAsymmetric(es[i].name, name);
          } else {
            AboveFrom(es, name, i);
          }
        }
        LookupAbsent(es, n);
      }
    } else {
      InsertOther(es, name, values, n);
    }
  }

  lemma InsertOther(es: seq<Field>, name: string, values: seq<string>, n: string)
    requires Sorted(es) && n != name
    ensures Lookup(Insert(es, name, values), n) == Lookup(es, n)
  {
    var p, r := Position(es, name), Insert(es, name, values);
    InsertSorted(es, name, values);
    if i :| 0 <= i < |es| && es[i].name == n {
      LookupAt(es, i);
      LookupAt(r, if |r| > |es| && i >= p then i + 1 else i);
    } else {
      LookupAbsent(es, n);
      LookupAbsent(r, n);
    }
  }

  lemma AddValid(canon: Canon, es: seq<Field>, name: string, values: seq<string>)
    requires Idempotent(canon) && Valid(canon, es)
    ensures Valid(canon, Add(canon, es, name, values))
  {
    InsertSorted(es, canon(name), values);
    assert canon(canon(name)) == canon(name);
  }

  /** Adding a whole sequence of fields, as the loops of Append, AppendHeaders and Extend do. */
  function AddAll(canon: Canon, es: seq<Field>, items: seq<Field>): seq<Field>
    decreases |items|
  {
    if items == [] then es
    else AddAll(canon, Add(canon, es, items[0].name, items[0].values), items[1..])
  }

  /** All values given for a canonical name, in order. */
  function Gather(canon: Canon, items: seq<Field>, n: string): seq<string> {
    if items == [] then []
    else (if canon(items[0].name) == n then items[0].values else []) + Gather(canon, items[1..], n)
  }

  lemma {:induction false} AddAllValid(canon: Canon, es: seq<Field>, items: seq<Field>)
    requires Idempotent(canon) && Valid(canon, es)
    ensures Valid(canon, AddAll(canon, es, items))
    decreases |items|
  {
    if items != [] {
      AddValid(canon, es, items[0].name, items[0].values);
      AddAllValid(canon, Add(canon, es, items[0].name, items[0].values), items[1..]);
    }
  }

  lemma AddLookup(canon: Canon, es: seq<Field>, name: string, values: seq<string>, n: string)
    requires Sorted(es)
    ensures Lookup(Add(canon, es, name, values), n) == Lookup(es, n) + if canon(name) == n then values else []
  {
    InsertLookup(es, canon(name), values, n);
  }

  /** Any sequence of adds refines appending to a multimap, name by name. */
  lemma {:induction false} AddAllMeans(canon: Canon, es: seq<Field>, items: seq<Field>, n: string)
    requires Idempotent(canon) && Valid(canon, es)
    ensures Lookup(AddAll(canon, es, items), n) == Lookup(es, n) + Gather(canon, items, n)
    decreases |items|
  {
    if items != [] {
      var first := items[0];
      var es', own := Add(canon, es, first.name, first.values), if canon(first.name) == n then first.values else [];
      AddValid(canon, es, first.name, first.values);
      AddLookup(canon, es, first.name, first.values, n);
      AddAllMeans(canon, es', items[1..], n);
      assert AddAll(canon, es, items) == AddAll(canon, es', items[1..]);
      Associative(Lookup(es, n), own, Gather(canon, items[1..], n));
    }
  }
}

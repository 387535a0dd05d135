/**
 The laws of the Header operations, over the values of HeaderSpec: Extend is a monoid,
 AddTo is its action on header maps, SetTo is undone by NewHeader, and Append does not
 depend on the iteration order of a map unless canonical names collide.
 */
module HeaderAlgebra {
  import opened Sequences
  import opened HeaderSpec

  /** The contents of an http.Header. */
  type HeaderMap = map<string, seq<string>>

  // ---------------------------------------------------------------- operations

  function Extend(canon: Canon, h: seq<Field>, more: seq<Field>): seq<Field> {
    if more == [] then h
    else if h == [] then more
    else AddAll(canon, h, more)
  }

  /** `order` lists every key once: one possible iteration order of a map. */
  ghost predicate Enumerates(order: seq<string>, keys: set<string>) {
    multiset(order) == multiset(keys)
  }

  function Items(order: seq<string>, more: HeaderMap): seq<Field>
    requires forall i | 0 <= i < |order| :: order[i] in more
  {
    seq(|order|, i requires 0 <= i < |order| => Field(order[i], more[order[i]]))
  }

  /** The name/value pairs of AppendHeaders; an odd last name gets a blank value. */
  function Pairs(more: seq<string>): seq<Field> {
    if more == [] then []
    else if |more| == 1 then [Field(more[0], [""])]
    else [Field(more[0], [more[1]])] + Pairs(more[2..])
  }

  /** The pairs, one by one. */
  lemma {:induction false} PairsAt(more: seq<string>)
    ensures |Pairs(more)| == (|more| + 1) / 2
    ensures forall k | 0 <= k < |Pairs(more)| ::
              Pairs(more)[k] == Field(more[2 * k], [if 2 * k + 1 < |more| then more[2 * k + 1] else ""])
    decreases |more|
  {
    if |more| > 1 {
      PairsAt(more[2..]);
    }
  }

  function Get(m: HeaderMap, name: string): seq<string> {
    if name in m then m[name] else []
  }

  function SetTo(es: seq<Field>, dst: HeaderMap): HeaderMap {
    if es == [] then dst
    else
      var n := |es| - 1;
      SetTo(es[..n], dst)[es[n].name := es[n].values]
  }

  function AddTo(es: seq<Field>, dst: HeaderMap): HeaderMap {
    if es == [] then dst
    else
      var n := |es| - 1;
      var before := AddTo(es[..n], dst);
      AddOne(before, es[n])
  }

  function AddOne(m: HeaderMap, f: Field): HeaderMap {
    m[f.name := Get(m, f.name) + f.values]
  }

  lemma OneFieldMore(es: seq<Field>, i: nat, dst: HeaderMap)
    requires i < |es|
    ensures SetTo(es[..i + 1], dst) == SetTo(es[..i], dst)[es[i].name := es[i].values]
    ensures AddTo(es[..i + 1], dst) == AddOne(AddTo(es[..i], dst), es[i])
  {
    assert es[..i + 1][..i] == es[..i];
  }

  // ---------------------------------------------------------------- Extend is a monoid

  lemma ValidTail(canon: Canon, es: seq<Field>)
    requires Valid(canon, es) && es != []
    ensures Valid(canon, es[1..]) && canon(es[0].name) == es[0].name
  {
  }

  lemma {:induction false} GatherIsLookup(canon: Canon, es: seq<Field>, n: string)
    requires Valid(canon, es)
    ensures Gather(canon, es, n) == Lookup(es, n)
  {
    if es != [] {
      ValidTail(canon, es);
      GatherIsLookup(canon, es[1..], n);
      if es[0].name == n {
        TailLacksHead(es);
        assert es[0].values + [] == es[0].values;
      }
    }
  }

  /** Extend is the union of the two multimaps, and keeps the representation valid. */
  lemma ExtendMeans(canon: Canon, h: seq<Field>, more: seq<Field>)
    requires Idempotent(canon) && Valid(canon, h) && Valid(canon, more)
    ensures Valid(canon, Extend(canon, h, more))
    ensures forall n :: Lookup(Extend(canon, h, more), n) == Lookup(h, n) + Lookup(more, n)
  {
    AddAllValid(canon, h, more);
    forall n
      ensures Lookup(Extend(canon, h, more), n) == Lookup(h, n) + Lookup(more, n)
    {
      AddAllMeans(canon, h, more, n);
      GatherIsLookup(canon, more, n);
    }
  }

  lemma ExtendAssociative(canon: Canon, a: seq<Field>, b: seq<Field>, c: seq<Field>)
    requires Idempotent(canon) && Valid(canon, a) && Valid(canon, b) && Valid(canon, c)
    ensures Extend(canon, Extend(canon, a, b), c) == Extend(canon, a, Extend(canon, b, c))
    ensures Extend(canon, a, []) == a == Extend(canon, [], a)
  {
    var ab, bc := Extend(canon, a, b), Extend(canon, b, c);
    ExtendMeans(canon, a, b);
    ExtendMeans(canon, b, c);
    ExtendMeans(canon, ab, c);
    ExtendMeans(canon, a, bc);
    forall n
      ensures Lookup(Extend(canon, ab, c), n) == Lookup(Extend(canon, a, bc), n)
    {
      Associative(Lookup(a, n), Lookup(b, n), Lookup(c, n));
    }
    Unique(Extend(canon, ab, c), Extend(canon, a, bc));
  }

  // ---------------------------------------------------------------- AddTo and SetTo

  ghost predicate HasName(es: seq<Field>, name: string) {
    exists i | 0 <= i < |es| :: es[i].name == name
  }

  lemma HasNameIffLookup(canon: Canon, es: seq<Field>, name: string)
    requires Valid(canon, es)
    ensures HasName(es, name) <==> Lookup(es, name) != []
  {
    if HasName(es, name) {
      var i :| 0 <= i < |es| && es[i].name == name;
      LookupAt(es, i);
    } else {
      LookupAbsent(es, name);
    }
  }

  lemma LookupPrefix(canon: Canon, es: seq<Field>, name: string)
    requires Valid(canon, es) && es != []
    ensures var n := |es| - 1;
            && Valid(canon, es[..n])
            && Lookup(es, name) == (if name == es[n].name then es[n].values else Lookup(es[..n], name))
            && Lookup(es[..n], es[n].name) == []
  {
    var n := |es| - 1;
    LookupAt(es, n);
    forall i | 0 <= i < n
      ensures es[..n][i].name != es[n].name
    {
      LessAsymmetric(es[i].name, es[n].name);
    }
    LookupAbsent(es[..n], es[n].name);
    if name != es[n].name {
      if i :| 0 <= i < n && es[i].name == name {
        LookupAt(es, i);
        LookupAt(es[..n], i);
      } else {
        LookupAbsent(es, name);
        LookupAbsent(es[..n], name);
      }
    }
  }

  lemma OneAdded(m: HeaderMap, f: Field, name: string)
    ensures Get(AddOne(m, f), name) == Get(m, name) + if name == f.name then f.values else []
    ensures name in AddOne(m, f) <==> name in m || name == f.name
  {
  }

  /** AddTo appends to each name the values of that name, and touches no other name. */
  lemma {:induction false} AddToMeans(canon: Canon, es: seq<Field>, dst: HeaderMap, name: string)
    requires Valid(canon, es)
    ensures Get(AddTo(es, dst), name) == Get(dst, name) + Lookup(es, name)
    ensures name in AddTo(es, dst) <==> name in dst || Lookup(es, name) != []
  {
    if es != [] {
      var n := |es| - 1;
      LookupPrefix(canon, es, name);
      AddToMeans(canon, es[..n], dst, name);
      OneAdded(AddTo(es[..n], dst), es[n], name);
    }
  }

  /** SetTo replaces the values of each name, and touches no other name. */
  lemma {:induction false} SetToMeans(canon: Canon, es: seq<Field>, dst: HeaderMap, name: string)
    requires Valid(canon, es)
    ensures Get(SetTo(es, dst), name) == if Lookup(es, name) != [] then Lookup(es, name) else Get(dst, name)
    ensures name in SetTo(es, dst) <==> name in dst || Lookup(es, name) != []
  {
    if es != [] {
      LookupPrefix(canon, es, name);
      SetToMeans(canon, es[..|es| - 1], dst, name);
    }
  }

  lemma SameMap(a: HeaderMap, b: HeaderMap)
    requires forall n :: (n in a <==> n in b) && Get(a, n) == Get(b, n)
    ensures a == b
  {
    forall n | n in a
      ensures n in b && a[n] == b[n]
    {
      assert Get(a, n) == Get(b, n);
    }
    assert a.Keys == b.Keys;
  }

  /** Adding an extended Header is adding the two Headers one after the other. */
  lemma AddToExtend(canon: Canon, h: seq<Field>, more: seq<Field>, dst: HeaderMap)
    requires Idempotent(canon) && Valid(canon, h) && Valid(canon, more)
    ensures AddTo(Extend(canon, h, more), dst) == AddTo(more, AddTo(h, dst))
  {
    var a, b := AddTo(Extend(canon, h, more), dst), AddTo(more, AddTo(h, dst));
    ExtendMeans(canon, h, more);
    forall n
      ensures (n in a <==> n in b) && Get(a, n) == Get(b, n)
    {
      AddToMeans(canon, Extend(canon, h, more), dst, n);
      AddToMeans(canon, h, dst, n);
      AddToMeans(canon, more, AddTo(h, dst), n);
      Associative(Get(dst, n), Lookup(h, n), Lookup(more, n));
    }
    SameMap(a, b);
  }

  // ---------------------------------------------------------------- iteration order

  lemma {:induction false} GatherConcat(canon: Canon, a: seq<Field>, b: seq<Field>, n: string)
    ensures Gather(canon, a + b, n) == Gather(canon, a, n) + Gather(canon, b, n)
  {
    if a == [] {
      assert a + b == b;
    } else {
      assert (a + b)[1..] == a[1..] + b;
      GatherConcat(canon, a[1..], b, n);
    }
  }

  lemma GatherAround(canon: Canon, items: seq<Field>, i: nat, n: string)
    requires i < |items|
    ensures Gather(canon, items, n) == Gather(canon, items[..i], n)
            + ((if canon(items[i].name) == n then items[i].values else []) + Gather(canon, items[i + 1..], n))
  {
    assert items == items[..i] + items[i..];
    GatherConcat(canon, items[..i], items[i..], n);
    assert items[i..] == [items[i]] + items[i + 1..];
    GatherConcat(canon, [items[i]], items[i + 1..], n);
    assert [items[i]][1..] == [];
  }

  /** The first element of a sequence, located in a permutation of it. */
  lemma WithoutFirst<T>(a: seq<T>, b: seq<T>) returns (i: nat)
    requires multiset(a) == multiset(b) && a != []
    ensures i < |b| && b[i] == a[0] && multiset(a[1..]) == multiset(b[..i] + b[i + 1..])
  {
    assert a[0] in multiset(b);
    i :| 0 <= i < |b| && b[i] == a[0];
    assert a == [a[0]] + a[1..];
    assert b == b[..i] + ([b[i]] + b[i + 1..]);
    assert multiset(a[1..]) == multiset(a) - multiset{a[0]};
    assert multiset(b[..i] + b[i + 1..]) == multiset(b) - multiset{b[i]};
  }

  /** Reordering the fields given keeps, for each name, the same values with the same counts. */
  lemma {:induction false} GatherPermutes(canon: Canon, a: seq<Field>, b: seq<Field>, n: string)
    requires multiset(a) == multiset(b)
    ensures multiset(Gather(canon, a, n)) == multiset(Gather(canon, b, n))
    decreases |a|
  {
    if a == [] {
      assert |multiset(b)| == |b|;
    } else {
      var i := WithoutFirst(a, b);
      GatherPermutes(canon, a[1..], b[..i] + b[i + 1..], n);
      GatherConcat(canon, b[..i], b[i + 1..], n);
      GatherAround(canon, b, i, n);
    }
  }

  ghost predicate Collides(canon: Canon, keys: set<string>) {
    exists j, k | j in keys && k in keys :: j != k && canon(j) == canon(k)
  }

  lemma RepeatCounts(order: seq<string>, i: nat, j: nat)
    requires i < j < |order| && order[i] == order[j]
    ensures multiset(order)[order[i]] >= 2
  {
    assert order == order[..j] + order[j..];
    assert order[i] in order[..j] && order[i] in order[j..];
  }

  lemma EnumeratesOnce(order: seq<string>, keys: set<string>)
    requires Enumerates(order, keys)
    ensures forall i | 0 <= i < |order| :: order[i] in keys
    ensures forall i, j | 0 <= i < j < |order| :: order[i] != order[j]
    ensures forall k | k in keys :: k in order
  {
    forall i | 0 <= i < |order|
      ensures order[i] in keys
    {
      assert order[i] in multiset(order);
    }
    forall i, j | 0 <= i < j < |order|
      ensures order[i] != order[j]
    {
      if order[i] == order[j] {
        RepeatCounts(order, i, j);
      }
    }
    forall k | k in keys
      ensures k in order
    {
      assert k in multiset(order);
    }
  }

  lemma {:induction false} GatherNone(canon: Canon, items: seq<Field>, n: string)
    requires forall i | 0 <= i < |items| :: canon(items[i].name) != n
    ensures Gather(canon, items, n) == []
  {
    if items != [] {
      GatherNone(canon, items[1..], n);
    }
  }

  lemma GatherOne(canon: Canon, items: seq<Field>, i: nat)
    requires i < |items|
    requires forall j | 0 <= j < |items| && j != i :: canon(items[j].name) != canon(items[i].name)
    ensures Gather(canon, items, canon(items[i].name)) == items[i].values
  {
    var n := canon(items[i].name);
    GatherAround(canon, items, i, n);
    GatherNone(canon, items[..i], n);
    GatherNone(canon, items[i + 1..], n);
  }

  /** Without colliding names, what is gathered for a name is the list of its only key. */
  lemma GatherKey(canon: Canon, order: seq<string>, more: HeaderMap, n: string)
    requires Enumerates(order, more.Keys) && !Collides(canon, more.Keys)
    requires forall i | 0 <= i < |order| :: order[i] in more
    ensures forall k | k in more && canon(k) == n :: Gather(canon, Items(order, more), n) == more[k]
    ensures (forall k | k in more :: canon(k) != n) ==> Gather(canon, Items(order, more), n) == []
  {
    EnumeratesOnce(order, more.Keys);
    if k :| k in more && canon(k) == n {
      var i :| 0 <= i < |order| && order[i] == k;
      GatherOne(canon, Items(order, more), i);
    } else {
      GatherNone(canon, Items(order, more), n);
    }
  }

  /**
   Append does not depend on the iteration order: any two orders give the same Header when
   no two keys of the map have the same canonical name, and in every case the same values
   with the same counts for each name.
   */
  lemma AppendOrderIrrelevant(canon: Canon, h: seq<Field>, more: HeaderMap, order: seq<string>, order': seq<string>)
    requires Idempotent(canon) && Valid(canon, h)
    requires Enumerates(order, more.Keys) && Enumerates(order', more.Keys)
    requires forall i | 0 <= i < |order| :: order[i] in more
    requires forall i | 0 <= i < |order'| :: order'[i] in more
    ensures var a, b := AddAll(canon, h, Items(order, more)), AddAll(canon, h, Items(order', more));
            && (forall n :: multiset(Lookup(a, n)) == multiset(Lookup(b, n)))
            && (!Collides(canon, more.Keys) ==> a == b)
  {
    var x, y := Items(order, more), Items(order', more);
    var a, b := AddAll(canon, h, x), AddAll(canon, h, y);
    ItemsPermute(order, order', more);
    forall n
      ensures multiset(Lookup(a, n)) == multiset(Lookup(b, n))
    {
      AddAllMeans(canon, h, x, n);
      AddAllMeans(canon, h, y, n);
      GatherPermutes(canon, x, y, n);
    }
    if !Collides(canon, more.Keys) {
      forall n
        ensures Lookup(a, n) == Lookup(b, n)
      {
        AddAllMeans(canon, h, x, n);
        AddAllMeans(canon, h, y, n);
        GatherKey(canon, order, more, n);
        GatherKey(canon, order', more, n);
      }
      AddAllValid(canon, h, x);
      AddAllValid(canon, h, y);
      Unique(a, b);
    }
  }

  lemma {:induction false} ItemsPermute(order: seq<string>, order': seq<string>, more: HeaderMap)
    requires multiset(order) == multiset(order')
    requires forall i | 0 <= i < |order| :: order[i] in more
    requires forall i | 0 <= i < |order'| :: order'[i] in more
    ensures multiset(Items(order, more)) == multiset(Items(order', more))
    decreases |order|
  {
    if order == [] {
      assert |multiset(order')| == |order'|;
    } else {
      var i := WithoutFirst(order, order');
      var rest := order'[..i] + order'[i + 1..];
      ItemsPermute(order[1..], rest, more);
      var y := Items(order', more);
      assert Items(order, more) == [Field(order[0], more[order[0]])] + Items(order[1..], more);
      assert Items(rest, more) == y[..i] + y[i + 1..];
      assert y == y[..i] + [y[i]] + y[i + 1..];
    }
  }

  // ---------------------------------------------------------------- what Append and AppendMap add

  /** The names of a list that have this canonical name, in the order of the list. */
  function Alike(canon: Canon, order: seq<string>, n: string): seq<string> {
    if order == [] then []
    else (if canon(order[0]) == n then [order[0]] else []) + Alike(canon, order[1..], n)
  }

  lemma {:induction false} AlikeCounts(canon: Canon, order: seq<string>, n: string)
    ensures forall k :: multiset(Alike(canon, order, n))[k] == if canon(k) == n then multiset(order)[k] else 0
  {
    if order != [] {
      AlikeCounts(canon, order[1..], n);
      assert order == [order[0]] + order[1..];
    }
  }

  /** The keys of a map that have this canonical name. */
  ghost function KeysNamed(canon: Canon, keys: set<string>, n: string): set<string> {
    set k | k in keys && canon(k) == n
  }

  lemma AlikeEnumerates(canon: Canon, order: seq<string>, keys: set<string>, n: string)
    requires Enumerates(order, keys)
    ensures Enumerates(Alike(canon, order, n), KeysNamed(canon, keys, n))
    ensures forall i | 0 <= i < |Alike(canon, order, n)| :: Alike(canon, order, n)[i] in KeysNamed(canon, keys, n)
  {
    AlikeCounts(canon, order, n);
    EnumeratesOnce(Alike(canon, order, n), KeysNamed(canon, keys, n));
  }

  /** The value lists of these keys, one after the other. */
  ghost function ValuesOf(names: seq<string>, more: HeaderMap): seq<string>
    requires forall i | 0 <= i < |names| :: names[i] in more
  {
    if names == [] then [] else more[names[0]] + ValuesOf(names[1..], more)
  }

  /** `after` is `before` with the values of the keys named `n`, in some order of these keys. */
  ghost predicate Gained(canon: Canon, before: seq<string>, after: seq<string>, more: HeaderMap, n: string) {
    exists names: seq<string> ::
      && Enumerates(names, KeysNamed(canon, more.Keys, n))
      && (forall i | 0 <= i < |names| :: names[i] in more)
      && after == before + ValuesOf(names, more)
  }

  lemma {:induction false} GatherAlike(canon: Canon, order: seq<string>, more: HeaderMap, n: string)
    requires forall i | 0 <= i < |order| :: order[i] in more
    ensures forall i | 0 <= i < |Alike(canon, order, n)| :: Alike(canon, order, n)[i] in more
    ensures Gather(canon, Items(order, more), n) == ValuesOf(Alike(canon, order, n), more)
    decreases |order|
  {
    if order != [] {
      GatherAlike(canon, order[1..], more, n);
      assert Items(order, more)[1..] == Items(order[1..], more);
      var rest := Alike(canon, order[1..], n);
      if canon(order[0]) == n {
        assert Alike(canon, order, n) == [order[0]] + rest;
        assert ([order[0]] + rest)[1..] == rest;
      } else {
        assert Alike(canon, order, n) == rest;
      }
    }
  }

  /** Append adds to each name the values of all keys with that canonical name, and nothing else. */
  lemma AppendMeans(canon: Canon, h: seq<Field>, more: HeaderMap, order: seq<string>, n: string)
    requires Idempotent(canon) && Valid(canon, h)
    requires Enumerates(order, more.Keys) && forall i | 0 <= i < |order| :: order[i] in more
    ensures Gained(canon, Lookup(h, n), Lookup(AddAll(canon, h, Items(order, more)), n), more, n)
  {
    AddAllMeans(canon, h, Items(order, more), n);
    GatherAlike(canon, order, more, n);
    AlikeEnumerates(canon, order, more.Keys, n);
  }

  /** A map of single values as a map of value lists. */
  function Single(more: map<string, string>): HeaderMap {
    map k | k in more :: [more[k]]
  }

  /** `after` is `before` with the value of each key named `n`, in some order of these keys. */
  ghost predicate GainedSingles(canon: Canon, before: seq<string>, after: seq<string>, more: map<string, string>,
                                n: string)
  {
    exists names: seq<string> ::
      && Enumerates(names, KeysNamed(canon, more.Keys, n))
      && |after| == |before| + |names| && before <= after
      && forall i | 0 <= i < |names| :: names[i] in more && after[|before| + i] == more[names[i]]
  }

  /**
   A Header with single values added: each name gains the values of all keys with that canonical name, each
   once; where it is the name of one key only, that is the one value, last.
   */
  ghost predicate AppendedSingles(canon: Canon, before: seq<Field>, after: seq<Field>, more: map<string, string>) {
    && (forall n :: GainedSingles(canon, Lookup(before, n), Lookup(after, n), more, n))
    && (!Collides(canon, more.Keys) ==>
          forall k | k in more :: Lookup(after, canon(k)) == Lookup(before, canon(k)) + [more[k]])
    && forall n | (forall k | k in more :: canon(k) != n) :: Lookup(after, n) == Lookup(before, n)
  }

  lemma {:induction false} SinglesOf(names: seq<string>, more: map<string, string>)
    requires forall i | 0 <= i < |names| :: names[i] in more
    ensures forall i | 0 <= i < |names| :: names[i] in Single(more)
    ensures |ValuesOf(names, Single(more))| == |names|
    ensures forall i | 0 <= i < |names| :: ValuesOf(names, Single(more))[i] == more[names[i]]
  {
    if names != [] {
      SinglesOf(names[1..], more);
    }
  }

  lemma OneGained(canon: Canon, before: seq<string>, after: seq<string>, more: map<string, string>, n: string)
    requires GainedSingles(canon, before, after, more, n)
    ensures !Collides(canon, more.Keys) ==> forall k | k in more && canon(k) == n :: after == before + [more[k]]
    ensures (forall k | k in more :: canon(k) != n) ==> after == before
  {
    var names: seq<string> :|
      && Enumerates(names, KeysNamed(canon, more.Keys, n))
      && |after| == |before| + |names| && before <= after
      && forall i | 0 <= i < |names| :: names[i] in more && after[|before| + i] == more[names[i]];
    EnumeratesOnce(names, KeysNamed(canon, more.Keys, n));
    assert |names| > 1 ==> names[0] != names[1];
    if k :| k in more && canon(k) == n {
      assert k in names;
      if !Collides(canon, more.Keys) {
        forall i | 0 <= i < |names|
          ensures names[i] == k
        {
          assert names[i] in KeysNamed(canon, more.Keys, n);
        }
      }
    }
  }

  lemma SinglesMean(canon: Canon, h: seq<Field>, more: map<string, string>, order: seq<string>, n: string)
    requires Idempotent(canon) && Valid(canon, h)
    requires Enumerates(order, more.Keys) && forall i | 0 <= i < |order| :: order[i] in more
    ensures GainedSingles(canon, Lookup(h, n), Lookup(AddAll(canon, h, Items(order, Single(more))), n), more, n)
  {
    hide AddAll, Valid, Lookup;
    AddAllMeans(canon, h, Items(order, Single(more)), n);
    GatherAlike(canon, order, Single(more), n);
    AlikeEnumerates(canon, order, more.Keys, n);
    SinglesOf(Alike(canon, order, n), more);
  }

  lemma AppendMapMeans(canon: Canon, h: seq<Field>, more: map<string, string>, order: seq<string>)
    requires Idempotent(canon) && Valid(canon, h)
    requires Enumerates(order, more.Keys) && forall i | 0 <= i < |order| :: order[i] in more
    ensures AppendedSingles(canon, h, AddAll(canon, h, Items(order, Single(more))), more)
  {
    hide GainedSingles, Collides, AddAll, Valid;
    var r := AddAll(canon, h, Items(order, Single(more)));
    forall n
      ensures GainedSingles(canon, Lookup(h, n), Lookup(r, n), more, n)
    {
      SinglesMean(canon, h, more, order, n);
    }
    forall n
      ensures !Collides(canon, more.Keys) ==>
                forall k | k in more && canon(k) == n :: Lookup(r, n) == Lookup(h, n) + [more[k]]
      ensures (forall k | k in more :: canon(k) != n) ==> Lookup(r, n) == Lookup(h, n)
    {
      OneGained(canon, Lookup(h, n), Lookup(r, n), more, n);
    }
  }

  // ---------------------------------------------------------------- round trip

  /** NewHeader undoes SetTo: rebuilding from an empty map filled by SetTo gives the Header back. */
  lemma NewHeaderUndoesSetTo(canon: Canon, es: seq<Field>, order: seq<string>)
    requires Idempotent(canon) && Valid(canon, es)
    requires Enumerates(order, SetTo(es, map[]).Keys)
    requires forall i | 0 <= i < |order| :: order[i] in SetTo(es, map[])
    ensures AddAll(canon, [], Items(order, SetTo(es, map[]))) == es
  {
    var m := SetTo(es, map[]);
    var r := AddAll(canon, [], Items(order, m));
    forall n
      ensures Lookup(r, n) == Lookup(es, n)
    {
      RebuiltLookup(canon, es, order, n);
    }
    AddAllValid(canon, [], Items(order, m));
    Unique(r, es);
  }

  lemma GatherSetTo(canon: Canon, es: seq<Field>, order: seq<string>, n: string)
    requires Valid(canon, es) && Enumerates(order, SetTo(es, map[]).Keys)
    requires forall i | 0 <= i < |order| :: order[i] in SetTo(es, map[])
    ensures Gather(canon, Items(order, SetTo(es, map[])), n) == Lookup(es, n)
  {
    var m := SetTo(es, map[]);
    forall k | k in m
      ensures canon(k) == k
    {
      SetToMeans(canon, es, map[], k);
      HasNameIffLookup(canon, es, k);
    }
    GatherKey(canon, order, m, n);
    SetToMeans(canon, es, map[], n);
  }

  lemma RebuiltLookup(canon: Canon, es: seq<Field>, order: seq<string>, n: string)
    requires Idempotent(canon) && Valid(canon, es) && Enumerates(order, SetTo(es, map[]).Keys)
    requires forall i | 0 <= i < |order| :: order[i] in SetTo(es, map[])
    ensures Lookup(AddAll(canon, [], Items(order, SetTo(es, map[]))), n) == Lookup(es, n)
  {
    AddAllMeans(canon, [], Items(order, SetTo(es, map[])), n);
    GatherSetTo(canon, es, order, n);
  }
}

/**
 The methods of Header over the slices of HeaderSlices, and the http.Header maps they read
 from and write to.  No method that builds a Header writes to anything that existed before
 the call: their `modifies` clauses are empty.
 */
module HeaderObject {
  import HeaderAliasing
  import opened HeaderSpec
  import opened HeaderAlgebra
  import opened HeaderSlices

  /** An http.Header: a map from names to slices of values. */
  class HttpHeader {
    var m: map<string, Strings>

    constructor ()
      ensures m == map[]
    {
      m := map[];
    }

    ghost predicate Ok()
      reads this
    {
      forall k | k in m :: m[k].Ok()
    }

    ghost function Arrays(): set<object?>
      reads this
    {
      set k | k in m :: m[k].arr as object?
    }

    ghost function Contents(): HeaderMap
      requires Ok()
      reads this, Arrays()
    {
      map k | k in m :: Elements(m[k])
    }
  }

  /** A well-formed Header: its slices are in range and its fields are valid. */
  ghost predicate Good(canon: Canon, h: Header)
    reads h.arr, if Backed(h) then HeaderSlices.Arrays(h) else {}
  {
    Backed(h) && Valid(canon, View(h))
  }

  // ---------------------------------------------------------------- a sequence of adds

  ghost predicate StepAt(canon: Canon, states: seq<seq<Field>>, items: seq<Field>, i: nat)
    requires i < |items| && |states| == |items| + 1
  {
    Sorted(states[i]) && states[i + 1] == HeaderSpec.Add(canon, states[i], items[i].name, items[i].values)
  }

  /** The fields before, between and after adding the items one by one. */
  ghost predicate Trace(canon: Canon, states: seq<seq<Field>>, items: seq<Field>) {
    |states| == |items| + 1 && forall i: nat | i < |items| :: StepAt(canon, states, items, i)
  }

  lemma {:induction false} TraceOf(canon: Canon, base: seq<Field>, items: seq<Field>) returns (states: seq<seq<Field>>)
    requires Idempotent(canon) && Valid(canon, base)
    ensures Trace(canon, states, items)
    ensures states[0] == base && states[|items|] == AddAll(canon, base, items)
    decreases |items|
  {
    if items == [] {
      states := [base];
    } else {
      AddValid(canon, base, items[0].name, items[0].values);
      var rest := TraceOf(canon, HeaderSpec.Add(canon, base, items[0].name, items[0].values), items[1..]);
      states := [base] + rest;
      forall i: nat | i < |items|
        ensures StepAt(canon, states, items, i)
      {
        if i > 0 {
          assert StepAt(canon, rest, items[1..], i - 1);
        }
      }
    }
  }

  /** One iteration of the loops of Append, AppendMap, AppendHeaders and Extend; it cannot panic. */
  method AddNext(canon: Canon, n: Header, name: string, values: Strings,
                 ghost states: seq<seq<Field>>, ghost items: seq<Field>, ghost i: nat,
                 ghost foreign: set<array<string>>)
    returns (r: Header)
    requires Trace(canon, states, items) && i < |items|
    requires values.Ok() && items[i] == Field(name, Elements(values))
    requires Backed(n) && n.arr != null && n.len < n.arr.Length && View(n) == states[i]
    modifies n.arr
    ensures r.arr == n.arr && n.len <= r.len <= n.len + 1 && Backed(r) && View(r) == states[i + 1]
    ensures Avoids(old(Entries(n)), foreign) ==> Avoids(Entries(r), foreign)
  {
    assert StepAt(canon, states, items, i);
    var panicked;
    r, panicked := HeaderSlices.Add(canon, n, name, values, foreign);
    assert !panicked;
  }

  /** One of the orders in which a map with these keys may be iterated. */
  method Range(keys: set<string>) returns (order: seq<string>)
    ensures Enumerates(order, keys) && |order| == |keys|
    ensures forall i | 0 <= i < |order| :: order[i] in keys
  {
    order := [];
    var rest := keys;
    while rest != {}
      invariant rest <= keys && multiset(order) + multiset(rest) == multiset(keys)
      invariant |order| + |rest| == |keys|
      invariant forall i | 0 <= i < |order| :: order[i] in keys
      decreases |rest|
    {
      var name :| name in rest;
      assert multiset(rest) == multiset(rest - {name}) + multiset{name};
      order := order + [name];
      rest := rest - {name};
    }
  }

  ghost predicate AllStringsOk(values: seq<Strings>) {
    forall i | 0 <= i < |values| :: values[i].Ok()
  }

  ghost function Given(names: seq<string>, values: seq<Strings>): (items: seq<Field>)
    requires |names| == |values| && AllStringsOk(values)
    reads set v | v in values :: v.arr
    ensures |items| == |names| && forall i | 0 <= i < |names| :: items[i] == Field(names[i], Elements(values[i]))
  {
    seq(|names|, i requires 0 <= i < |names| && values[i].Ok() reads set v | v in values :: v.arr =>
      Field(names[i], Elements(values[i])))
  }

  /** Clone, then add each name with its values. */
  method AddLoop(canon: Canon, h: Header, minCap: nat, names: seq<string>, values: seq<Strings>,
                 ghost states: seq<seq<Field>>, ghost foreign: set<array<string>>)
    returns (n: Header)
    requires Backed(h) && |names| == |values| && AllStringsOk(values) && minCap >= h.len + |names|
    requires Trace(canon, states, Given(names, values)) && View(h) == states[0]
    ensures Backed(n) && fresh(n.arr) && View(n) == states[|names|]
    ensures Avoids(old(Entries(h)), foreign) ==> Avoids(Entries(n), foreign)
  {
    assert |states| == |names| + 1;
    ghost var items := Given(names, values);
    n := Clone(h, minCap);
    ghost var arr: array<Entry> := n.arr;
    for i := 0 to |names|
      invariant n.arr == arr && arr.Length >= h.len + |names|
      invariant n.len <= h.len + i && Backed(n)
      invariant View(n) == states[i]
      invariant Avoids(old(Entries(h)), foreign) ==> Avoids(Entries(n), foreign)
      modifies arr
    {
      var r := AddNext(canon, n, names[i], values[i], states, items, i, foreign);
      assert Backed(r) && View(r) == states[i + 1];
      n := r;
    }
  }

  /**
   What Append, AppendMap, AppendHeaders and Extend have in common: a new Header with the
   given names and values added in order, sharing nothing but value slices of the old one.
   */
  method AddEach(canon: Canon, h: Header, minCap: nat, names: seq<string>, values: seq<Strings>,
                 ghost foreign: set<array<string>>)
    returns (r: Header)
    requires Idempotent(canon) && Good(canon, h) && |names| == |values| && AllStringsOk(values)
    requires minCap >= h.len + |names|
    ensures Good(canon, r) && fresh(r.arr)
    ensures View(r) == AddAll(canon, old(View(h)), old(Given(names, values)))
    ensures Avoids(old(Entries(h)), foreign) ==> Avoids(Entries(r), foreign)
  {
    AddAllValid(canon, View(h), Given(names, values));
    ghost var states := TraceOf(canon, View(h), Given(names, values));
    r := AddLoop(canon, h, minCap, names, values, states, foreign);
  }

  // ---------------------------------------------------------------- the operations that build a Header

  /** Append, for whatever order the map is iterated in. */
  method Append(canon: Canon, h: Header, more: HttpHeader, ghost foreign: set<array<string>>)
    returns (r: Header, order: seq<string>)
    requires Idempotent(canon) && Good(canon, h) && more.Ok()
    ensures Enumerates(order, more.m.Keys) && forall i | 0 <= i < |order| :: order[i] in more.m
    ensures Good(canon, r) && View(r) == AddAll(canon, old(View(h)), Items(order, old(more.Contents())))
    ensures if more.m == map[] then r == h else fresh(r.arr)
    ensures Avoids(old(Entries(h)), foreign) ==> Avoids(Entries(r), foreign)
  {
    ghost var base, contents := View(h), more.Contents();
    order := Range(more.m.Keys);
    if |more.m| == 0 {
      return h, order;
    }
    var m := more.m;
    var values := seq(|order|, i requires 0 <= i < |order| && order[i] in m => m[order[i]]);
    assert more.Contents() == contents && View(h) == base;
    assert Given(order, values) == Items(order, contents);
    r := AddEach(canon, h, h.len + |m|, order, values, foreign);
  }

  /** The slices []string{value}. */
  method Singletons(texts: seq<string>) returns (values: seq<Strings>)
    ensures |values| == |texts| && AllStringsOk(values)
    ensures forall i | 0 <= i < |texts| :: Elements(values[i]) == [texts[i]]
  {
    values := [];
    for i := 0 to |texts|
      invariant |values| == i && AllStringsOk(values)
      invariant forall k | 0 <= k < i :: values[k].arr != null && fresh(values[k].arr)
      invariant forall k | 0 <= k < i :: Elements(values[k]) == [texts[k]]
    {
      var one := new string[1](_ => texts[i]);
      values := values + [Strings(one, 1)];
    }
  }

  method AppendMap(canon: Canon, h: Header, more: map<string, string>, ghost foreign: set<array<string>>)
    returns (r: Header, order: seq<string>)
    requires Idempotent(canon) && Good(canon, h)
    ensures Enumerates(order, more.Keys) && forall i | 0 <= i < |order| :: order[i] in more
    ensures Good(canon, r) && View(r) == AddAll(canon, old(View(h)), Items(order, Single(more)))
    ensures AppendedSingles(canon, old(View(h)), View(r), more)
    ensures if more == map[] then r == h else fresh(r.arr)
    ensures Avoids(old(Entries(h)), foreign) ==> Avoids(Entries(r), foreign)
  {
    ghost var base := View(h);
    order := Range(more.Keys);
    AppendMapMeans(canon, base, more, order);
    hide AppendedSingles;
    if |more| == 0 {
      return h, order;
    }
    var values := Singletons(seq(|order|, i requires 0 <= i < |order| && order[i] in more => more[order[i]]));
    assert Given(order, values) == Items(order, Single(more));
    assert View(h) == base;
    r := AddEach(canon, h, h.len + |more|, order, values, foreign);
  }

  /** AppendHeaders: name, value, name, value; an odd last name gets a blank value. */
  method AppendHeaders(canon: Canon, h: Header, more: seq<string>, ghost foreign: set<array<string>>)
    returns (r: Header)
    requires Idempotent(canon) && Good(canon, h)
    ensures Good(canon, r) && View(r) == AddAll(canon, old(View(h)), Pairs(more))
    ensures if more == [] then r == h else fresh(r.arr)
    ensures Avoids(old(Entries(h)), foreign) ==> Avoids(Entries(r), foreign)
  {
    ghost var base := View(h);
    if more == [] {
      return h;
    }
    var names, texts := SplitPairs(more);
    var values := Singletons(texts);
    assert Given(names, values) == Pairs(more);
    assert View(h) == base;
    r := AddEach(canon, h, h.len + 1 + |more| / 2, names, values, foreign);
  }

  method SplitPairs(more: seq<string>) returns (names: seq<string>, texts: seq<string>)
    ensures |names| == |texts| == |Pairs(more)| <= 1 + |more| / 2
    ensures forall k | 0 <= k < |names| :: Pairs(more)[k] == Field(names[k], [texts[k]])
  {
    names, texts := [], [];
    var i, j := 0, 1;
    while i < |more|
      invariant 0 <= i <= |more| + 1 && j == i + 1
      invariant 2 * |names| == 2 * |texts| == i
      invariant forall k | 0 <= k < |names| :: names[k] == more[2 * k]
      invariant forall k | 0 <= k < |texts| :: texts[k] == if 2 * k + 1 < |more| then more[2 * k + 1] else ""
    {
      var text := "";
      if j < |more| {
        text := more[j];
      }
      names, texts := names + [more[i]], texts + [text];
      i, j := i + 2, j + 2;
    }
    PairsAt(more);
  }

  /** Extend: one of the arguments itself when the other is empty, otherwise a new Header. */
  method Extend(canon: Canon, h: Header, more: Header, ghost foreign: set<array<string>>) returns (r: Header)
    requires Idempotent(canon) && Good(canon, h) && Good(canon, more)
    ensures Good(canon, r) && View(r) == HeaderAlgebra.Extend(canon, old(View(h)), old(View(more)))
    ensures if more.len == 0 then r == h else if h.len == 0 then r == more else fresh(r.arr)
    ensures Avoids(old(Entries(h)), foreign) && Avoids(old(Entries(more)), foreign) ==> Avoids(Entries(r), foreign)
  {
    if more.len == 0 {
      return h;
    } else if h.len == 0 {
      return more;
    }
    var entries := more.arr[..more.len];
    var names := seq(|entries|, i requires 0 <= i < |entries| => entries[i].name);
    var values := seq(|entries|, i requires 0 <= i < |entries| => entries[i].values);
    assert Given(names, values) == View(more);
    r := AddEach(canon, h, h.len + more.len, names, values, foreign);
  }

  // ---------------------------------------------------------------- writing to an http.Header

  /** Store a slice under a name. */
  method Store(dst: HttpHeader, name: string, values: Strings)
    requires dst.Ok() && values.Ok()
    modifies dst
    ensures dst.m == old(dst.m)[name := values] && dst.Ok()
    ensures dst.Contents() == old(dst.Contents())[name := old(Elements(values))]
  {
    ghost var before := dst.Contents();
    dst.m := dst.m[name := values];
    assert dst.Contents() == before[name := Elements(values)];
  }

  /** Every array of the map is among the given ones. */
  ghost predicate Within(m: map<string, Strings>, arrays: set<array<string>>) {
    forall k | k in m && m[k].arr != null :: m[k].arr in arrays
  }

  /** The given arrays, and possibly arrays made since. */
  twostate predicate Wider(arrays: set<array<string>>, new wider: set<array<string>>) {
    arrays <= wider && forall o | o in wider :: o in arrays || fresh(o)
  }

  /** dst[name] = append([]string{}, values...). */
  method CopyTo(dst: HttpHeader, name: string, values: Strings) returns (s: Strings)
    requires dst.Ok() && values.Ok()
    modifies dst
    ensures dst.Ok() && dst.m == old(dst.m)[name := s] && s.arr != null && fresh(s.arr)
    ensures dst.Contents() == old(dst.Contents())[name := old(Elements(values))]
  {
    ghost var contents, vs := dst.Contents(), Elements(values);
    s := Merge(Strings(null, 0), values);
    assert dst.Contents() == contents && Elements(s) == vs;
    Store(dst, name, s);
  }

  /**
   SetTo: replace the values of each name by a copy of those of this Header.  `outside` are
   the arrays the client can reach; the copies come on top of them.
   */
  method SetTo(h: Header, dst: HttpHeader, ghost outside: set<array<string>>) returns (ghost wider: set<array<string>>)
    requires Backed(h) && dst.Ok() && Within(dst.m, outside)
    modifies dst
    ensures dst.Ok() && dst.Contents() == HeaderAlgebra.SetTo(old(View(h)), old(dst.Contents()))
    ensures Within(dst.m, wider) && Wider(outside, wider)
  {
    ghost var es, before := View(h), dst.Contents();
    var entries := if h.arr == null then [] else h.arr[..h.len];
    wider := outside;
    for i := 0 to |entries|
      invariant dst.Ok() && Within(dst.m, wider) && Wider(outside, wider)
      invariant dst.Contents() == HeaderAlgebra.SetTo(es[..i], before)
    {
      OneFieldMore(es, i, before);
      assert Elements(entries[i].values) == es[i].values;
      var s := CopyTo(dst, entries[i].name, entries[i].values);
      wider := wider + {s.arr};
    }
    assert es[..|entries|] == es;
  }

  /** The built-in append: in place while the capacity lasts, otherwise into a new array. */
  method AppendSlice(a: Strings, b: Strings) returns (s: Strings)
    requires a.Ok() && b.Ok() && (a.arr != null ==> a.arr != b.arr)
    modifies if a.arr == null then {} else {a.arr}
    ensures s.Ok() && Elements(s) == old(Elements(a)) + old(Elements(b))
    ensures s.arr != null && (s.arr == a.arr || fresh(s.arr))
    ensures s.arr == a.arr <==> a.arr != null && a.len + b.len <= a.arr.Length
    ensures if s.arr == a.arr then a.arr[..] == HeaderAliasing.Written(old(a.arr[..]), a.len, old(Elements(b)))
            else s.len == s.arr.Length && (a.arr != null ==> a.arr[..] == old(a.arr[..]))
  {
    if a.arr != null && a.len + b.len <= a.arr.Length {
      ghost var first := a.arr[..a.len];
      forall i | 0 <= i < b.len {
        a.arr[a.len + i] := b.arr[i];
      }
      s := Strings(a.arr, a.len + b.len);
      assert a.arr[..a.len] == first;
    } else {
      s := Merge(a, b);
    }
  }

  /** The slice under a name, nil if there is none. */
  function Under(m: map<string, Strings>, name: string): Strings {
    if name in m then m[name] else Strings(null, 0)
  }

  // ---------------------------------------------------------------- AddTo, and what arrays share

  type Slots = HeaderAliasing.Slots<array<string>>

  ghost function ArraysOf(m: map<string, Strings>): set<array<string>> {
    set n | n in m && m[n].arr != null :: m[n].arr
  }

  /** The slices of the map and the arrays behind them, as a value. */
  ghost function SlotsOf(m: map<string, Strings>): Slots
    reads ArraysOf(m)
  {
    HeaderAliasing.Slots(map n | n in m :: SlotOf(m[n]), map a | a in ArraysOf(m) :: a[..])
  }

  ghost function SlotOf(s: Strings): HeaderAliasing.Slot<array<string>> {
    if s.arr == null then HeaderAliasing.Own([])
    else
      var arr: array<string> := s.arr;
      HeaderAliasing.Shared(arr, s.len)
  }

  /** What is in each array. */
  type Memory = map<array<string>, seq<string>>

  ghost predicate Snapshot(c: Memory)
    reads c.Keys
  {
    forall a | a in c :: c[a] == a[..]
  }

  /** The slice is in an array of its own, and holds the values. */
  ghost predicate OwnSlice(m: map<string, Strings>, c: Memory, st: Slots, n: string, values: seq<string>)
    requires n in m
  {
    if m[n].arr == null then values == []
    else
      var arr: array<string> := m[n].arr;
      && arr in c && c[arr] == values && m[n].len == |values| && arr !in st.mem
      && forall k | k in m && k != n :: m[k].arr != m[n].arr
  }

  ghost predicate RepSlot(m: map<string, Strings>, c: Memory, st: Slots, n: string)
    requires n in m && n in st.slots
  {
    match st.slots[n]
    case Shared(arr, len) => m[n] == Strings(arr, len) && arr in st.mem
    case Own(values) => OwnSlice(m, c, st, n, values)
  }

  /** The map, with its arrays as in `c`, is what the value says. */
  ghost predicate Rep(m: map<string, Strings>, c: Memory, st: Slots) {
    && m.Keys == st.slots.Keys && (forall a | a in st.mem :: a in c && c[a] == st.mem[a])
    && forall n | n in m :: RepSlot(m, c, st, n)
  }

  /** Every map is what its value at the time says. */
  lemma RepStart(m: map<string, Strings>, c: Memory, st: Slots)
    requires st.slots == (map n | n in m :: SlotOf(m[n])) && st.mem == c && c.Keys == ArraysOf(m)
    ensures Rep(m, c, st)
  {
  }

  /** An append in place. */
  lemma RepInPlace(m: map<string, Strings>, c: Memory, st: Slots, name: string, vs: seq<string>, s: Strings)
    requires HeaderAliasing.Ok(st) && Rep(m, c, st) && name in m && m[name].arr != null
    requires var arr: array<string> := m[name].arr; arr in c && m[name].len + |vs| <= |c[arr]|
    requires s == Strings(m[name].arr, m[name].len + |vs|)
    ensures var arr: array<string> := m[name].arr;
            Rep(m[name := s], c[arr := HeaderAliasing.Written(c[arr], m[name].len, vs)],
                HeaderAliasing.Append(st, Field(name, vs)))
  {
    assert RepSlot(m, c, st, name);
    var arr: array<string> := m[name].arr;
    var c' := c[arr := HeaderAliasing.Written(c[arr], m[name].len, vs)];
    var st' := HeaderAliasing.Append(st, Field(name, vs));
    var m' := m[name := s];
    if st.slots[name].Own? {
      assert vs == [] && HeaderAliasing.Written(c[arr], m[name].len, vs) == c[arr];
      assert c' == c && st.slots[name].values + vs == st.slots[name].values;
    }
    forall n | n in m'
      ensures RepSlot(m', c', st', n)
    {
      assert RepSlot(m, c, st, n);
    }
  }

  /** An append that moves to a new array. */
  lemma RepMoved(m: map<string, Strings>, c: Memory, st: Slots, name: string, vs: seq<string>, s: Strings)
    requires HeaderAliasing.Ok(st) && Rep(m, c, st) && s.arr != null
    requires var arr: array<string> := s.arr; arr !in c && forall n | n in m :: m[n].arr != arr
    requires var own := Under(m, name);
             own.arr != null ==> var arr: array<string> := own.arr; arr in c && own.len + |vs| > |c[arr]|
    requires s.len == |Held(m, c, name) + vs|
    ensures var arr: array<string> := s.arr;
            Rep(m[name := s], c[arr := Held(m, c, name) + vs], HeaderAliasing.Append(st, Field(name, vs)))
  {
    var arr: array<string> := s.arr;
    var all := Held(m, c, name) + vs;
    var c', st' := c[arr := all], HeaderAliasing.Append(st, Field(name, vs));
    if name in m {
      assert RepSlot(m, c, st, name);
    }
    var m' := m[name := s];
    forall n | n in m'
      ensures RepSlot(m', c', st', n)
    {
      if n != name {
        assert RepSlot(m, c, st, n);
      }
    }
  }

  /** What is under a name. */
  ghost function Held(m: map<string, Strings>, c: Memory, name: string): seq<string> {
    var own := Under(m, name);
    if own.arr == null then []
    else
      var arr: array<string> := own.arr;
      if arr in c && own.len <= |c[arr]| then c[arr][..own.len] else []
  }

  /** append(m[name], values...), keeping account of what is in which array. */
  method AppendUnder(m: map<string, Strings>, name: string, values: Strings, ghost c: Memory, ghost st: Slots)
    returns (s: Strings, ghost c': Memory)
    requires Under(m, name).Ok() && values.Ok()
    requires Under(m, name).arr != null ==> Under(m, name).arr != values.arr
    requires HeaderAliasing.Ok(st) && Rep(m, c, st) && Snapshot(c) && ArraysOf(m) <= c.Keys
    modifies if Under(m, name).arr == null then {} else {Under(m, name).arr}
    ensures s.Ok() && s.arr != null && (s.arr == Under(m, name).arr || fresh(s.arr))
    ensures Rep(m[name := s], c', HeaderAliasing.Append(st, Field(name, old(Elements(values)))))
    ensures Snapshot(c') && ArraysOf(m[name := s]) <= c'.Keys
  {
    ghost var own, vs, held := Under(m, name), Elements(values), Held(m, c, name);
    if own.arr != null {
      assert own.arr in ArraysOf(m);
    }
    assert Elements(own) == held;
    hide Rep, HeaderAliasing.Append, HeaderAliasing.Ok, Held;
    s := AppendSlice(Under(m, name), values);
    ghost var arr: array<string> := s.arr;
    if s.arr == own.arr {
      c' := c[arr := HeaderAliasing.Written(c[arr], own.len, vs)];
      RepInPlace(m, c, st, name, vs, s);
    } else {
      c' := c[arr := held + vs];
      assert Elements(s) == held + vs;
      RepMoved(m, c, st, name, vs, s);
    }
  }

  /** dst[name] = append(dst[name], values...). */
  method AppendTo(dst: HttpHeader, name: string, values: Strings, ghost c: Memory, ghost st: Slots)
    returns (s: Strings, ghost c': Memory)
    requires dst.Ok() && values.Ok()
    requires Under(dst.m, name).arr != null ==> Under(dst.m, name).arr != values.arr
    requires HeaderAliasing.Ok(st) && Rep(dst.m, c, st) && Snapshot(c) && ArraysOf(dst.m) <= c.Keys
    modifies dst, if Under(dst.m, name).arr == null then {} else {Under(dst.m, name).arr}
    ensures dst.Ok() && dst.m == old(dst.m)[name := s]
    ensures s.arr != null && (s.arr == old(Under(dst.m, name).arr) || fresh(s.arr))
    ensures Rep(dst.m, c', HeaderAliasing.Append(st, Field(name, old(Elements(values)))))
    ensures Snapshot(c') && ArraysOf(dst.m) <= c'.Keys
  {
    hide Rep, HeaderAliasing.Append, HeaderAliasing.Ok, ArraysOf;
    s, c' := AppendUnder(dst.m, name, values, c, st);
    dst.m := dst.m[name := s];
  }

  /** A represented map holds what the value holds. */
  lemma RepContents(dst: HttpHeader, c: Memory, st: Slots)
    requires dst.Ok() && HeaderAliasing.Ok(st) && Rep(dst.m, c, st) && Snapshot(c)
    ensures dst.Contents() == HeaderAliasing.Contents(st)
  {
    forall n | n in dst.m
      ensures Elements(dst.m[n]) == HeaderAliasing.Values(st, n)
    {
      assert RepSlot(dst.m, c, st, n);
    }
  }

  /** The loop of AddTo. */
  method AppendEach(entries: seq<Entry>, dst: HttpHeader, ghost outside: set<array<string>>,
                    ghost c: Memory, ghost st: Slots)
    returns (ghost wider: set<array<string>>, ghost c': Memory)
    requires AllOk(entries) && dst.Ok() && Within(dst.m, outside) && Avoids(entries, outside)
    requires HeaderAliasing.Ok(st) && Rep(dst.m, c, st) && Snapshot(c) && ArraysOf(dst.m) <= c.Keys
    modifies dst, outside
    ensures dst.Ok() && Within(dst.m, wider) && Wider(outside, wider)
    ensures Rep(dst.m, c', HeaderAliasing.AppendAll(st, old(Fields(entries)))) && Snapshot(c')
  {
    ghost var es := Fields(entries);
    wider, c' := outside, c;
    for i := 0 to |entries|
      invariant dst.Ok() && Within(dst.m, wider) && Wider(outside, wider)
      invariant Rep(dst.m, c', HeaderAliasing.AppendAll(st, es[..i])) && Snapshot(c') && ArraysOf(dst.m) <= c'.Keys
    {
      HeaderAliasing.OneAppendMore(st, es, i);
      assert Elements(entries[i].values) == es[i].values;
      var s;
      s, c' := AppendTo(dst, entries[i].name, entries[i].values, c', HeaderAliasing.AppendAll(st, es[..i]));
      wider := wider + {s.arr};
    }
    assert es[..|entries|] == es;
  }

  /**
   AddTo: append the values of each name in the map.  Where the capacity of a slice of the
   map allows, this writes into its array, also under other names; HeaderAliasing says when the map then
   holds what it should.  This Header stays as it is, as its own arrays are never among those the client
   can reach.
   */
  method AddTo(h: Header, dst: HttpHeader, ghost outside: set<array<string>>) returns (ghost wider: set<array<string>>)
    requires Backed(h) && dst.Ok() && Within(dst.m, outside) && Avoids(Entries(h), outside)
    modifies dst, outside
    ensures View(h) == old(View(h))
    ensures dst.Ok() && Within(dst.m, wider) && Wider(outside, wider)
    ensures HeaderAliasing.Ok(old(SlotsOf(dst.m)))
    ensures old(dst.Contents()) == HeaderAliasing.Contents(old(SlotsOf(dst.m)))
    ensures dst.Contents() == HeaderAliasing.Contents(HeaderAliasing.AppendAll(old(SlotsOf(dst.m)), old(View(h))))
  {
    ghost var es, before := View(h), SlotsOf(dst.m);
    ghost var c := before.mem;
    RepStart(dst.m, c, before);
    RepContents(dst, c, before);
    var entries := if h.arr == null then [] else h.arr[..h.len];
    wider, c := AppendEach(entries, dst, outside, c, before);
    RepContents(dst, c, HeaderAliasing.AppendAll(before, es));
  }
}

/**
 Immutability over whole programs: a client holds any number of Headers and http.Header
 maps, calls the operations in any order, and may overwrite, at any time, the arrays it can
 reach through its maps.  No Header ever shows anything but what it showed when built.
 */
module HeaderSession {
  import opened Options

  import opened HeaderAlgebra
  import opened HeaderSpec
  import opened HeaderSlices
  import opened HeaderObject

  /** A Header shows the given fields, and shares no array with the client. */
  ghost predicate Shows(h: Header, fields: seq<Field>, outside: set<array<string>>)
    reads h.arr, if Backed(h) then HeaderSlices.Arrays(h) else {}
  {
    Backed(h) && View(h) == fields && Avoids(Entries(h), outside)
  }

  ghost predicate AllShow(headers: seq<Header>, shown: seq<seq<Field>>, outside: set<array<string>>)
    reads *
  {
    |shown| == |headers| && forall i | 0 <= i < |headers| :: Shows(headers[i], shown[i], outside)
  }

  ghost predicate AllValid(canon: Canon, shown: seq<seq<Field>>) {
    forall i | 0 <= i < |shown| :: Valid(canon, shown[i])
  }

  /** Every array of the map is one the client can reach. */
  ghost predicate Reachable(dst: HttpHeader, outside: set<array<string>>)
    reads dst
  {
    dst.Ok() && Within(dst.m, outside)
  }

  datatype Op =
    | NewMap
    | Put(dst: nat, name: string, texts: seq<string>)
    | Write(dst: nat, name: string, at: nat, text: string)
    | Append(header: nat, from: nat)
    | AppendMap(header: nat, more: map<string, string>)
    | AppendHeaders(header: nat, pairs: seq<string>)
    | Extend(header: nat, other: nat)
    | SetTo(header: nat, dst: nat)
    | AddTo(header: nat, dst: nat)

  ghost predicate AllReachable(maps: seq<HttpHeader>, outside: set<array<string>>)
    reads set dst | dst in maps
  {
    forall j | 0 <= j < |maps| :: Reachable(maps[j], outside)
  }

  // ---------------------------------------------------------------- what an operation builds, as values

  /** `items` are the names and values of the map, in some iteration order. */
  ghost predicate Iterates(items: seq<Field>, m: HeaderMap) {
    exists order: seq<string> ::
      Enumerates(order, m.Keys) && (forall i | 0 <= i < |order| :: order[i] in m) && items == Items(order, m)
  }

  /** `fields` are `base` with the contents of the map appended, in some iteration order. */
  ghost predicate Appended(canon: Canon, base: seq<Field>, m: HeaderMap, fields: seq<Field>) {
    exists items: seq<Field> :: Iterates(items, m) && fields == AddAll(canon, base, items)
  }

  /** Whether the operation builds a Header out of those there are; Append also needs its map. */
  ghost predicate IsBuilding(op: Op, count: nat, contents: Option<HeaderMap>) {
    CanBuild(op, count) && (op.Append? ==> contents.Some?)
  }

  predicate CanBuild(op: Op, count: nat) {
    match op
    case Append(header, _) => header < count
    case AppendMap(header, _) => header < count
    case AppendHeaders(header, _) => header < count
    case Extend(header, other) => header < count && other < count
    case _ => false
  }

  /** The Header built shows `fields`, given what the others show and the contents of the map. */
  ghost predicate Builds(canon: Canon, op: Op, shown: seq<seq<Field>>, contents: Option<HeaderMap>, fields: seq<Field>)
    requires IsBuilding(op, |shown|, contents)
  {
    match op
    case Append(header, _) => Appended(canon, shown[header], contents.value, fields)
    case AppendMap(header, more) => Appended(canon, shown[header], Single(more), fields)
    case AppendHeaders(header, pairs) => fields == AddAll(canon, shown[header], Pairs(pairs))
    case Extend(header, other) => fields == HeaderAlgebra.Extend(canon, shown[header], shown[other])
  }

  /** One operation on values: a building operation adds one Header, every other one changes none. */
  ghost predicate Stage(canon: Canon, op: Op, shown: seq<seq<Field>>, contents: Option<HeaderMap>,
                        after: seq<seq<Field>>)
  {
    if IsBuilding(op, |shown|, contents)
    then |after| == |shown| + 1 && shown <= after && Builds(canon, op, shown, contents, after[|shown|])
    else after == shown
  }

  /** What the Header built by an operation shows, name by name; every other operation builds none. */
  lemma StageMeans(canon: Canon, op: Op, shown: seq<seq<Field>>, contents: Option<HeaderMap>, after: seq<seq<Field>>)
    requires Idempotent(canon) && AllValid(canon, shown) && Stage(canon, op, shown, contents, after)
    ensures shown <= after
    ensures match op
            case Append(i, _) =>
              i < |shown| && contents.Some? ==>
                && |after| == |shown| + 1
                && forall n :: Gained(canon, Lookup(shown[i], n), Lookup(after[|shown|], n), contents.value, n)
            case AppendMap(i, more) =>
              i < |shown| ==> |after| == |shown| + 1 && AppendedSingles(canon, shown[i], after[|shown|], more)
            case AppendHeaders(i, pairs) =>
              i < |shown| ==>
                && |after| == |shown| + 1
                && forall n ::
                     Lookup(after[|shown|], n) == Lookup(shown[i], n) + Gather(canon, Pairs(pairs), n)
            case Extend(i, j) =>
              i < |shown| && j < |shown| ==>
                && |after| == |shown| + 1
                && forall n :: Lookup(after[|shown|], n) == Lookup(shown[i], n) + Lookup(shown[j], n)
            case _ => after == shown
  {
    hide Valid, Lookup, AddAll, AppendedSingles, Gained, Gather;
    if IsBuilding(op, |shown|, contents) {
      match op {
        case Append(i, _) => AppendedMeans(canon, shown[i], contents.value, after[|shown|]);
        case AppendMap(i, more) => AppendedMapMeans(canon, shown[i], more, after[|shown|]);
        case AppendHeaders(i, pairs) => AllAdded(canon, shown[i], Pairs(pairs));
        case Extend(i, j) => ExtendMeans(canon, shown[i], shown[j]);
      }
    }
  }

  lemma AllAdded(canon: Canon, base: seq<Field>, items: seq<Field>)
    requires Idempotent(canon) && Valid(canon, base)
    ensures forall n :: Lookup(AddAll(canon, base, items), n) == Lookup(base, n) + Gather(canon, items, n)
  {
    forall n
      ensures Lookup(AddAll(canon, base, items), n) == Lookup(base, n) + Gather(canon, items, n)
    {
      AddAllMeans(canon, base, items, n);
    }
  }

  lemma AppendedMeans(canon: Canon, base: seq<Field>, m: HeaderMap, fields: seq<Field>)
    requires Idempotent(canon) && Valid(canon, base) && Appended(canon, base, m, fields)
    ensures forall n :: Gained(canon, Lookup(base, n), Lookup(fields, n), m, n)
  {
    var items: seq<Field> :| Iterates(items, m) && fields == AddAll(canon, base, items);
    var order: seq<string> :|
      Enumerates(order, m.Keys) && (forall i | 0 <= i < |order| :: order[i] in m) && items == Items(order, m);
    forall n
      ensures Gained(canon, Lookup(base, n), Lookup(fields, n), m, n)
    {
      AppendMeans(canon, base, m, order, n);
    }
  }

  lemma AppendedMapMeans(canon: Canon, base: seq<Field>, more: map<string, string>, fields: seq<Field>)
    requires Idempotent(canon) && Valid(canon, base) && Appended(canon, base, Single(more), fields)
    ensures AppendedSingles(canon, base, fields, more)
  {
    var m := Single(more);
    assert m.Keys == more.Keys;
    var items: seq<Field> :| Iterates(items, m) && fields == AddAll(canon, base, items);
    var order: seq<string> :|
      Enumerates(order, m.Keys) && (forall i | 0 <= i < |order| :: order[i] in m) && items == Items(order, m);
    AppendMapMeans(canon, base, more, order);
  }

  // ---------------------------------------------------------------- operations that build a Header

  method DoAppend(canon: Canon, headers: seq<Header>, i: nat, more: HttpHeader,
                  ghost shown: seq<seq<Field>>, ghost outside: set<array<string>>) returns (r: Header)
    requires Idempotent(canon) && AllShow(headers, shown, outside)
    requires i < |headers| && Valid(canon, shown[i]) && more.Ok()
    ensures AllShow(headers, shown, outside) && Backed(r) && Shows(r, View(r), outside) && Valid(canon, View(r))
    ensures Appended(canon, shown[i], old(more.Contents()), View(r))
  {
    ghost var contents := more.Contents();
    assert Shows(headers[i], shown[i], outside);
    var order: seq<string>;
    r, order := HeaderObject.Append(canon, headers[i], more, outside);
    assert Iterates(Items(order, contents), contents);
  }

  method DoAppendMap(canon: Canon, headers: seq<Header>, i: nat, more: map<string, string>,
                     ghost shown: seq<seq<Field>>, ghost outside: set<array<string>>) returns (r: Header)
    requires Idempotent(canon) && AllShow(headers, shown, outside) && i < |headers| && Valid(canon, shown[i])
    ensures AllShow(headers, shown, outside) && Backed(r) && Shows(r, View(r), outside) && Valid(canon, View(r))
    ensures Appended(canon, shown[i], Single(more), View(r))
  {
    assert Shows(headers[i], shown[i], outside);
    var order: seq<string>;
    r, order := HeaderObject.AppendMap(canon, headers[i], more, outside);
    assert Iterates(Items(order, Single(more)), Single(more)) by {
      assert Single(more).Keys == more.Keys;
    }
  }

  method DoAppendHeaders(canon: Canon, headers: seq<Header>, i: nat, pairs: seq<string>,
                         ghost shown: seq<seq<Field>>, ghost outside: set<array<string>>) returns (r: Header)
    requires Idempotent(canon) && AllShow(headers, shown, outside) && i < |headers| && Valid(canon, shown[i])
    ensures AllShow(headers, shown, outside) && Backed(r) && Shows(r, View(r), outside) && Valid(canon, View(r))
    ensures View(r) == AddAll(canon, shown[i], Pairs(pairs))
  {
    assert Shows(headers[i], shown[i], outside);
    r := HeaderObject.AppendHeaders(canon, headers[i], pairs, outside);
  }

  method DoExtend(canon: Canon, headers: seq<Header>, i: nat, j: nat,
                  ghost shown: seq<seq<Field>>, ghost outside: set<array<string>>) returns (r: Header)
    requires Idempotent(canon) && AllShow(headers, shown, outside)
    requires i < |headers| && Valid(canon, shown[i]) && j < |headers| && Valid(canon, shown[j])
    ensures AllShow(headers, shown, outside) && Backed(r) && Shows(r, View(r), outside) && Valid(canon, View(r))
    ensures View(r) == HeaderAlgebra.Extend(canon, shown[i], shown[j])
  {
    assert Shows(headers[i], shown[i], outside) && Shows(headers[j], shown[j], outside);
    r := HeaderObject.Extend(canon, headers[i], headers[j], outside);
  }

  // ---------------------------------------------------------------- operations that write

  method AddToOne(headers: seq<Header>, from: Header, dst: HttpHeader, ghost shown: seq<seq<Field>>,
                  ghost outside: set<array<string>>)
    returns (ghost wider: set<array<string>>)
    requires AllShow(headers, shown, outside) && Reachable(dst, outside)
    requires Backed(from) && Avoids(Entries(from), outside)
    modifies dst, outside
    ensures AllShow(headers, shown, wider)
    ensures Reachable(dst, wider) && Wider(outside, wider)
  {
    wider := HeaderObject.AddTo(from, dst, outside);
    forall k | 0 <= k < |headers|
      ensures Shows(headers[k], shown[k], wider)
    {
      var h := headers[k];
      assert old(Shows(h, shown[k], outside));
      assert Entries(h) == old(Entries(h));
      assert View(h) == old(View(h));
    }
  }

  method DoAddTo(headers: seq<Header>, maps: seq<HttpHeader>, i: nat, j: nat,
                 ghost shown: seq<seq<Field>>, ghost outside: set<array<string>>)
    returns (ghost wider: set<array<string>>)
    requires AllShow(headers, shown, outside) && AllReachable(maps, outside) && i < |headers| && j < |maps|
    modifies maps[j], outside
    ensures AllShow(headers, shown, wider) && AllReachable(maps, wider) && Wider(outside, wider)
  {
    assert Shows(headers[i], shown[i], outside);
    wider := AddToOne(headers, headers[i], maps[j], shown, outside);
  }

  method SetToOne(headers: seq<Header>, from: Header, dst: HttpHeader, ghost shown: seq<seq<Field>>,
                  ghost outside: set<array<string>>)
    returns (ghost wider: set<array<string>>)
    requires AllShow(headers, shown, outside) && Reachable(dst, outside)
    requires Backed(from) && Avoids(Entries(from), outside)
    modifies dst
    ensures AllShow(headers, shown, wider)
    ensures Reachable(dst, wider) && Wider(outside, wider)
  {
    wider := HeaderObject.SetTo(from, dst, outside);
    forall k | 0 <= k < |headers|
      ensures Shows(headers[k], shown[k], wider)
    {
      var h := headers[k];
      assert old(Shows(h, shown[k], outside));
      assert Entries(h) == old(Entries(h));
      assert View(h) == old(View(h));
    }
  }

  method DoSetTo(headers: seq<Header>, maps: seq<HttpHeader>, i: nat, j: nat,
                 ghost shown: seq<seq<Field>>, ghost outside: set<array<string>>)
    returns (ghost wider: set<array<string>>)
    requires AllShow(headers, shown, outside) && AllReachable(maps, outside) && i < |headers| && j < |maps|
    modifies maps[j]
    ensures AllShow(headers, shown, wider) && AllReachable(maps, wider) && Wider(outside, wider)
  {
    assert Shows(headers[i], shown[i], outside);
    wider := SetToOne(headers, headers[i], maps[j], shown, outside);
  }

  /** The client overwrites one value it can reach. */
  method DoWrite(headers: seq<Header>, maps: seq<HttpHeader>, j: nat, name: string, at: nat, text: string,
                 ghost shown: seq<seq<Field>>, ghost outside: set<array<string>>)
    requires AllShow(headers, shown, outside) && AllReachable(maps, outside)
    requires j < |maps| && name in maps[j].m && maps[j].m[name].arr != null && at < maps[j].m[name].arr.Length
    modifies maps[j].m[name].arr
    ensures AllShow(headers, shown, outside) && AllReachable(maps, outside)
  {
    maps[j].m[name].arr[at] := text;
    forall k | 0 <= k < |headers|
      ensures Shows(headers[k], shown[k], outside)
    {
      var h := headers[k];
      assert old(Shows(h, shown[k], outside));
      assert Entries(h) == old(Entries(h));
      assert View(h) == old(View(h));
    }
  }

  /** The client stores a slice of its own under a name. */
  method DoPut(headers: seq<Header>, maps: seq<HttpHeader>, j: nat, name: string, texts: seq<string>,
               ghost shown: seq<seq<Field>>, ghost outside: set<array<string>>)
    returns (ghost wider: set<array<string>>)
    requires AllShow(headers, shown, outside) && AllReachable(maps, outside) && j < |maps|
    modifies maps[j]
    ensures AllShow(headers, shown, wider) && AllReachable(maps, wider) && Wider(outside, wider)
  {
    var arr := new string[|texts|](i requires 0 <= i < |texts| => texts[i]);
    wider := outside + {arr};
    maps[j].m := maps[j].m[name := Strings(arr, |texts|)];
    forall k | 0 <= k < |headers|
      ensures Shows(headers[k], shown[k], wider)
    {
      var h := headers[k];
      assert old(Shows(h, shown[k], outside));
      assert Entries(h) == old(Entries(h));
      assert View(h) == old(View(h));
    }
  }

  // ---------------------------------------------------------------- whole programs

  /** One building operation. */
  method Build(canon: Canon, op: Op, headers: seq<Header>, maps: seq<HttpHeader>,
               ghost shown: seq<seq<Field>>, ghost outside: set<array<string>>, ghost contents: Option<HeaderMap>)
    returns (r: Header)
    requires Idempotent(canon) && AllValid(canon, shown) && AllShow(headers, shown, outside)
    requires IsBuilding(op, |headers|, contents)
    requires op.Append? ==> op.from < |maps| && maps[op.from].Ok() && contents.value == maps[op.from].Contents()
    ensures AllShow(headers, shown, outside) && Backed(r) && Shows(r, View(r), outside) && Valid(canon, View(r))
    ensures |shown| == |headers| && Builds(canon, op, shown, contents, View(r))
  {
    hide AddAll, HeaderAlgebra.Extend, Appended, Valid, Pairs, Shows, View;
    assert |shown| == |headers|;
    match op {
      case Append(header, from) =>
        r := DoAppend(canon, headers, header, maps[from], shown, outside);
      case AppendMap(header, more) =>
        r := DoAppendMap(canon, headers, header, more, shown, outside);
      case AppendHeaders(header, pairs) =>
        r := DoAppendHeaders(canon, headers, header, pairs, shown, outside);
      case Extend(header, other) =>
        r := DoExtend(canon, headers, header, other, shown, outside);
    }
  }

  lemma OneMoreShown(canon: Canon, headers: seq<Header>, shown: seq<seq<Field>>, r: Header, outside: set<array<string>>)
    requires AllShow(headers, shown, outside) && AllValid(canon, shown)
    requires Backed(r) && Shows(r, View(r), outside) && Valid(canon, View(r))
    ensures AllShow(headers + [r], shown + [View(r)], outside) && AllValid(canon, shown + [View(r)])
    ensures |shown| == |headers|
  {
  }

  /** One building operation; without effect when an index is out of range. */
  method BuildIfAny(canon: Canon, op: Op, headers: seq<Header>, maps: seq<HttpHeader>,
                    ghost shown: seq<seq<Field>>, ghost outside: set<array<string>>)
    returns (built: seq<Header>, ghost shows: seq<seq<Field>>, ghost contents: Option<HeaderMap>)
    requires Idempotent(canon) && AllValid(canon, shown)
    requires AllShow(headers, shown, outside) && AllReachable(maps, outside)
    ensures AllValid(canon, shows) && AllShow(built, shows, outside)
    ensures headers <= built && Stage(canon, op, shown, contents, shows)
    ensures contents == if op.Append? && op.from < |maps| then Some(old(maps[op.from].Contents())) else None
  {
    hide Builds, Valid, Shows, View;
    contents := None;
    if op.Append? && op.from < |maps| {
      assert Reachable(maps[op.from], outside);
      contents := Some(maps[op.from].Contents());
    }
    built, shows := headers, shown;
    assert |shown| == |headers|;
    if !op.Append? || op.from < |maps| {
      if CanBuild(op, |headers|) {
        var r := Build(canon, op, headers, maps, shown, outside, contents);
        OneMoreShown(canon, headers, shown, r, outside);
        built, shows := headers + [r], shown + [View(r)];
      }
    }
  }

  /**
   One operation of the client.  `contents` is what the map of an Append holds at this point; what
   all Headers show afterwards is what the operation gives on values.
   */
  method Step(canon: Canon, op: Op, headers: seq<Header>, maps: seq<HttpHeader>,
              ghost shown: seq<seq<Field>>, ghost outside: set<array<string>>)
    returns (built: seq<Header>, maps': seq<HttpHeader>, ghost shows: seq<seq<Field>>, ghost wider: set<array<string>>,
             ghost contents: Option<HeaderMap>)
    requires Idempotent(canon) && AllValid(canon, shown)
    requires AllShow(headers, shown, outside) && AllReachable(maps, outside)
    modifies maps, outside
    ensures AllValid(canon, shows) && AllShow(built, shows, wider) && AllReachable(maps', wider)
    ensures headers <= built && Stage(canon, op, shown, contents, shows) && Wider(outside, wider)
    ensures contents == if op.Append? && op.from < |maps| then Some(old(maps[op.from].Contents())) else None
    ensures if op.NewMap? then |maps'| == |maps| + 1 && maps <= maps' && fresh(maps'[|maps|]) else maps' == maps
  {
    built, maps', shows, wider, contents := headers, maps, shown, outside, None;
    if op.SetTo? && op.header < |headers| && op.dst < |maps| {
      wider := DoSetTo(headers, maps, op.header, op.dst, shown, outside);
    } else if op.AddTo? && op.header < |headers| && op.dst < |maps| {
      wider := DoAddTo(headers, maps, op.header, op.dst, shown, outside);
    } else if op.Put? && op.dst < |maps| {
      wider := DoPut(headers, maps, op.dst, op.name, op.texts, shown, outside);
    } else if op.Write? && op.dst < |maps| && op.name in maps[op.dst].m {
      var s := maps[op.dst].m[op.name];
      assert Reachable(maps[op.dst], outside);
      if s.arr != null && op.at < s.arr.Length {
        assert s.arr in outside;
        DoWrite(headers, maps, op.dst, op.name, op.at, op.text, shown, outside);
      }
    } else if op.NewMap? {
      var fresh' := new HttpHeader();
      maps' := maps + [fresh'];
    } else {
      built, shows, contents := BuildIfAny(canon, op, headers, maps, shown, outside);
    }
  }

  /** The stages of a program on values: each follows from the one before by one operation. */
  ghost predicate Stages(canon: Canon, ops: seq<Op>, stages: seq<seq<seq<Field>>>, given: seq<Option<HeaderMap>>,
                         n: nat)
    requires n <= |ops|
  {
    && |stages| == n + 1 && |given| == n
    && forall i | 0 <= i < n :: Stage(canon, ops[i], stages[i], given[i], stages[i + 1])
  }

  lemma StagesMore(canon: Canon, ops: seq<Op>, stages: seq<seq<seq<Field>>>, given: seq<Option<HeaderMap>>, n: nat,
                   contents: Option<HeaderMap>, shows: seq<seq<Field>>)
    requires n < |ops| && Stages(canon, ops, stages, given, n)
    requires Stage(canon, ops[n], stages[n], contents, shows)
    ensures Stages(canon, ops, stages + [shows], given + [contents], n + 1)
  {
    hide Stage;
    var stages', given' := stages + [shows], given + [contents];
    forall i | 0 <= i < n + 1
      ensures Stage(canon, ops[i], stages'[i], given'[i], stages'[i + 1])
    {
      if i < n {
        assert Stage(canon, ops[i], stages[i], given[i], stages[i + 1]);
      }
    }
  }

  /** What a Header showed at one stage it shows at every later one, in the same place. */
  lemma {:induction false} StagesGrow(canon: Canon, ops: seq<Op>, stages: seq<seq<seq<Field>>>,
                                      given: seq<Option<HeaderMap>>, n: nat, i: nat, j: nat)
    requires n <= |ops| && Stages(canon, ops, stages, given, n) && i <= j <= n
    ensures stages[i] <= stages[j]
    decreases j
  {
    if i < j {
      StagesGrow(canon, ops, stages, given, n, i, j - 1);
      assert Stage(canon, ops[j - 1], stages[j - 1], given[j - 1], stages[j]);
    }
  }

  /** How many maps the client holds after these operations. */
  function MapCount(count: nat, ops: seq<Op>): nat {
    if ops == [] then count
    else
      var n := |ops| - 1;
      MapCount(count, ops[..n]) + if ops[n].NewMap? then 1 else 0
  }

  /** An Append whose map exists, and only that, is given what the map holds. */
  ghost predicate GivenInRange(ops: seq<Op>, given: seq<Option<HeaderMap>>, count: nat, n: nat)
    requires n <= |ops|
  {
    && |given| == n
    && forall i | 0 <= i < n :: given[i].Some? <==> ops[i].Append? && ops[i].from < MapCount(count, ops[..i])
  }

  /** One operation more. */
  lemma RunMore(canon: Canon, ops: seq<Op>, stages: seq<seq<seq<Field>>>, given: seq<Option<HeaderMap>>, count: nat,
                n: nat, contents: Option<HeaderMap>, shows: seq<seq<Field>>)
    requires n < |ops| && Stages(canon, ops, stages, given, n) && GivenInRange(ops, given, count, n)
    requires Stage(canon, ops[n], stages[n], contents, shows)
    requires contents.Some? <==> ops[n].Append? && ops[n].from < MapCount(count, ops[..n])
    ensures Stages(canon, ops, stages + [shows], given + [contents], n + 1)
    ensures GivenInRange(ops, given + [contents], count, n + 1)
    ensures MapCount(count, ops[..n + 1]) == MapCount(count, ops[..n]) + if ops[n].NewMap? then 1 else 0
    ensures (stages + [shows])[n + 1] == shows && (stages + [shows])[0] == stages[0]
    ensures n > 0 ==> (given + [contents])[0] == given[0]
    ensures n == 0 ==> (given + [contents])[0] == contents
  {
    hide Stage;
    StagesMore(canon, ops, stages, given, n, contents, shows);
    assert ops[..n + 1][..n] == ops[..n];
  }

  lemma RunEmpty(canon: Canon, ops: seq<Op>, shown: seq<seq<Field>>, count: nat)
    ensures Stages(canon, ops, [shown], [], 0) && GivenInRange(ops, [], count, 0) && MapCount(count, ops[..0]) == count
  {
  }

  lemma StagesEnd(canon: Canon, ops: seq<Op>, stages: seq<seq<seq<Field>>>, given: seq<Option<HeaderMap>>)
    requires Stages(canon, ops, stages, given, |ops|)
    ensures |stages| == |ops| + 1 && forall n | 0 <= n <= |ops| :: stages[n] <= stages[|ops|]
  {
    forall n | 0 <= n <= |ops|
      ensures stages[n] <= stages[|ops|]
    {
      StagesGrow(canon, ops, stages, given, |ops|, n, |ops|);
    }
  }

  /** What the Headers show, one by one. */
  lemma EachShows(headers: seq<Header>, shown: seq<seq<Field>>, outside: set<array<string>>)
    requires AllShow(headers, shown, outside)
    ensures |headers| == |shown| && forall i | 0 <= i < |headers| :: Backed(headers[i]) && View(headers[i]) == shown[i]
  {
    forall i | 0 <= i < |headers|
      ensures Backed(headers[i]) && View(headers[i]) == shown[i]
    {
      assert Shows(headers[i], shown[i], outside);
    }
  }

  /** The operations from the `from`-th on. */
  method Continue(canon: Canon, ops: seq<Op>, from: nat, headers: seq<Header>, maps: seq<HttpHeader>,
                  ghost past: seq<seq<seq<Field>>>, ghost had: seq<Option<HeaderMap>>,
                  ghost outside: set<array<string>>, ghost count: nat)
    returns (built: seq<Header>, maps': seq<HttpHeader>, ghost stages: seq<seq<seq<Field>>>,
             ghost given: seq<Option<HeaderMap>>, ghost wider: set<array<string>>)
    requires Idempotent(canon) && 0 < from <= |ops| && |maps| == MapCount(count, ops[..from])
    requires Stages(canon, ops, past, had, from) && GivenInRange(ops, had, count, from)
    requires |past| == from + 1 && |had| == from && AllValid(canon, past[from])
    requires AllShow(headers, past[from], outside) && AllReachable(maps, outside)
    modifies maps, outside
    ensures headers <= built && Stages(canon, ops, stages, given, |ops|) && GivenInRange(ops, given, count, |ops|)
    ensures |stages| == |ops| + 1 && |given| == |ops| && stages[0] == past[0] && given[0] == had[0]
    ensures AllValid(canon, stages[|ops|]) && AllShow(built, stages[|ops|], wider)
    ensures AllReachable(maps', wider) && Wider(outside, wider)
    ensures maps <= maps' && |maps'| == MapCount(count, ops[..|ops|])
    ensures forall j | |maps| <= j < |maps'| :: fresh(maps'[j])
  {
    hide Stages, GivenInRange, Stage, AllShow, Shows, AllValid, MapCount;
    built, maps', stages, given, wider := headers, maps, past, had, outside;
    ghost var shows := past[from];
    for n := from to |ops|
      invariant headers <= built && Wider(outside, wider)
      invariant Stages(canon, ops, stages, given, n) && GivenInRange(ops, given, count, n)
      invariant |stages| == n + 1 && |given| == n && stages[n] == shows
      invariant stages[0] == past[0] && given[0] == had[0]
      invariant AllValid(canon, shows) && AllShow(built, shows, wider) && AllReachable(maps', wider)
      invariant maps <= maps' && |maps'| == MapCount(count, ops[..n])
      invariant forall j | |maps| <= j < |maps'| :: fresh(maps'[j])
    {
      ghost var contents;
      built, maps', shows, wider, contents := Step(canon, ops[n], built, maps', shows, wider);
      RunMore(canon, ops, stages, given, count, n, contents, shows);
      stages, given := stages + [shows], given + [contents];
    }
  }

  /**
   Immutability and refinement: whatever a client does, in any order, every Header shows at the end
   what the last stage says, and the stages are those of the same program on values; a Header that
   was there before shows what it showed then.  A program that starts with an Append gives it what
   its map holds.  The client can go on from there: any two programs in a row are one program.
   */
  method Run(canon: Canon, ops: seq<Op>, headers: seq<Header>, maps: seq<HttpHeader>,
             ghost shown: seq<seq<Field>>, ghost outside: set<array<string>>)
    returns (built: seq<Header>, maps': seq<HttpHeader>, ghost stages: seq<seq<seq<Field>>>,
             ghost given: seq<Option<HeaderMap>>, ghost wider: set<array<string>>)
    requires Idempotent(canon) && AllValid(canon, shown)
    requires AllShow(headers, shown, outside) && AllReachable(maps, outside)
    modifies maps, outside
    ensures headers <= built
    ensures Stages(canon, ops, stages, given, |ops|) && stages[0] == shown
    ensures AllValid(canon, stages[|ops|]) && AllShow(built, stages[|ops|], wider)
    ensures AllReachable(maps', wider) && Wider(outside, wider)
    ensures maps <= maps' && |maps'| == MapCount(|maps|, ops) && forall j | |maps| <= j < |maps'| :: fresh(maps'[j])
    ensures GivenInRange(ops, given, |maps|, |ops|)
    ensures |ops| > 0 && ops[0].Append? && ops[0].from < |maps| ==>
              given[0] == Some(old(maps[ops[0].from].Contents()))
    ensures forall n | 0 <= n <= |ops| :: stages[n] <= stages[|ops|]
  {
    hide Stages, GivenInRange, Stage, AllShow, Shows, AllValid, MapCount;
    RunEmpty(canon, ops, shown, |maps|);
    built, maps', stages, given, wider := headers, maps, [shown], [], outside;
    if |ops| > 0 {
      ghost var shows, contents;
      built, maps', shows, wider, contents := Step(canon, ops[0], headers, maps, shown, outside);
      RunMore(canon, ops, stages, given, |maps|, 0, contents, shows);
      built, maps', stages, given, wider :=
        Continue(canon, ops, 1, built, maps', stages + [shows], given + [contents], wider, |maps|);
    }
    assert ops[..|ops|] == ops;
    StagesEnd(canon, ops, stages, given);
  }

  /**
   Two programs in a row, with the state in between in view: no Header shows anything but what it
   showed there, and if the second starts with an Append, the Header it builds shows, at the end too,
   what that Append gives on the contents of the map in between.
   */
  method RunThen(canon: Canon, first: seq<Op>, second: seq<Op>, headers: seq<Header>, maps: seq<HttpHeader>,
                 ghost shown: seq<seq<Field>>, ghost outside: set<array<string>>)
    returns (built: seq<Header>)
    requires Idempotent(canon) && AllValid(canon, shown)
    requires AllShow(headers, shown, outside) && AllReachable(maps, outside)
    modifies maps, outside
    ensures headers <= built
    ensures forall i | 0 <= i < |headers| :: Backed(built[i]) && View(built[i]) == shown[i]
  {
    EachShows(headers, shown, outside);
    hide Stages, GivenInRange, Stage, AllShow, Shows, AllValid, MapCount, View, Appended, AllReachable;
    var before, held;
    ghost var stages, given, arrays;
    before, held, stages, given, arrays := Run(canon, first, headers, maps, shown, outside);
    ghost var between := stages[|first|];
    EachShows(before, between, arrays);
    label Middle:
    var maps';
    ghost var stages', given', wider;
    built, maps', stages', given', wider := Run(canon, second, before, held, between, arrays);
    EachShows(built, stages'[|second|], wider);
    assert forall i | 0 <= i < |before| :: View(built[i]) == old@Middle(View(before[i]));
    if |second| > 0 && second[0].Append? && second[0].header < |before| && second[0].from < |held| {
      FirstAppend(canon, second, stages', given');
      assert Appended(canon, between[second[0].header], old@Middle(held[second[0].from].Contents()),
                      View(built[|before|]));
    }
  }

  lemma FirstAppend(canon: Canon, ops: seq<Op>, stages: seq<seq<seq<Field>>>, given: seq<Option<HeaderMap>>)
    requires |ops| > 0 && Stages(canon, ops, stages, given, |ops|)
    requires ops[0].Append? && ops[0].header < |stages[0]| && given[0].Some?
    ensures |stages[1]| == |stages[0]| + 1
    ensures Appended(canon, stages[0][ops[0].header], given[0].value, stages[1][|stages[0]|])
  {
    assert Stage(canon, ops[0], stages[0], given[0], stages[1]);
  }
}

/**
 AddTo on a map whose slices may share arrays, as values: what the in-place appends leave in the
 map, and exactly when that is what appending to each name on its own would give.

 `A` identifies the arrays there are at the start.  A slice that outgrows its array moves to one
 of its own, which nobody else has.
 */
module HeaderAliasing {
  import opened HeaderAlgebra
  import opened HeaderSpec

  datatype Slot<A> = Shared(arr: A, len: nat) | Own(values: seq<string>)

  /** The slices of a map, and the contents of the arrays behind them, spare capacity included. */
  datatype Slots<A(==)> = Slots(slots: map<string, Slot<A>>, mem: map<A, seq<string>>)

  ghost predicate Ok<A>(st: Slots<A>) {
    forall n | n in st.slots && st.slots[n].Shared? ::
      st.slots[n].arr in st.mem && st.slots[n].len <= |st.mem[st.slots[n].arr]|
  }

  ghost function Values<A>(st: Slots<A>, n: string): seq<string>
    requires Ok(st) && n in st.slots
  {
    match st.slots[n]
    case Shared(arr, len) => st.mem[arr][..len]
    case Own(values) => values
  }

  ghost function Contents<A>(st: Slots<A>): HeaderMap
    requires Ok(st)
  {
    map n | n in st.slots :: Values(st, n)
  }

  /** `all` with `values` written at `at`. */
  function Written(all: seq<string>, at: nat, values: seq<string>): seq<string>
    requires at + |values| <= |all|
  {
    all[..at] + values + all[at + |values|..]
  }

  /** slots[f.name] = append(slots[f.name], f.values...): in place while the capacity lasts. */
  ghost function Append<A>(st: Slots<A>, f: Field): (r: Slots<A>)
    requires Ok(st)
    ensures Ok(r)
  {
    if f.name in st.slots && st.slots[f.name].Shared? then
      var arr, len := st.slots[f.name].arr, st.slots[f.name].len;
      if len + |f.values| <= |st.mem[arr]|
      then Slots(st.slots[f.name := Shared(arr, len + |f.values|)], st.mem[arr := Written(st.mem[arr], len, f.values)])
      else st.(slots := st.slots[f.name := Own(st.mem[arr][..len] + f.values)])
    else
      st.(slots := st.slots[f.name := Own((if f.name in st.slots then st.slots[f.name].values else []) + f.values)])
  }

  ghost function AppendAll<A>(st: Slots<A>, es: seq<Field>): (r: Slots<A>)
    requires Ok(st)
    ensures Ok(r)
  {
    if es == [] then st
    else
      var n := |es| - 1;
      Append(AppendAll(st, es[..n]), es[n])
  }

  lemma OneAppendMore<A>(st: Slots<A>, es: seq<Field>, i: nat)
    requires Ok(st) && i < |es|
    ensures AppendAll(st, es[..i + 1]) == Append(AppendAll(st, es[..i]), es[i])
  {
    assert es[..i + 1][..i] == es[..i];
  }

  // ---------------------------------------------------------------- when appends stay out of each other's way

  /** Both slices are in one array. */
  ghost predicate Sharing<A>(st: Slots<A>, j: string, k: string) {
    && j in st.slots && k in st.slots && j != k
    && st.slots[j].Shared? && st.slots[k].Shared? && st.slots[j].arr == st.slots[k].arr
  }

  /** An append to `j` can be in place. */
  ghost predicate Spare<A>(st: Slots<A>, j: string)
    requires Ok(st) && j in st.slots && st.slots[j].Shared?
  {
    st.slots[j].len < |st.mem[st.slots[j].arr]|
  }

  /**
   Where a slice that may be appended to has spare capacity, the slices it shares its array with are no
   longer than it and are not appended to.
   */
  ghost predicate Safe<A>(may: string -> bool, st: Slots<A>)
    requires Ok(st)
  {
    forall j, k | Sharing(st, j, k) && may(j) && Spare(st, j) :: !may(k) && st.slots[k].len <= st.slots[j].len
  }

  lemma AppendKeepsSafe<A>(may: string -> bool, st: Slots<A>, f: Field)
    requires Ok(st) && Safe(may, st) && may(f.name)
    ensures Safe(may, Append(st, f))
  {
    var r := Append(st, f);
    forall j, k | Sharing(r, j, k) && may(j) && Spare(r, j)
      ensures !may(k) && r.slots[k].len <= r.slots[j].len
    {
      assert Sharing(st, j, k) && Sharing(st, k, j);
      assert k != f.name;
    }
  }

  lemma AppendIsAddOne<A>(may: string -> bool, st: Slots<A>, f: Field)
    requires Ok(st) && Safe(may, st) && may(f.name)
    ensures Contents(Append(st, f)) == AddOne(Contents(st), f)
  {
    var r := Append(st, f);
    forall n | n in r.slots && n != f.name
      ensures Values(r, n) == Values(st, n)
    {
      if f.name in st.slots && Sharing(st, f.name, n) && f.values != [] && !Spare(st, f.name) {
        assert st.mem == r.mem;
      }
    }
  }

  /** Safe appends give what appending to each name on its own gives. */
  lemma {:induction false} SafeIsExact<A>(may: string -> bool, st: Slots<A>, es: seq<Field>)
    requires Ok(st) && Safe(may, st) && forall i | 0 <= i < |es| :: may(es[i].name)
    ensures Safe(may, AppendAll(st, es)) && Contents(AppendAll(st, es)) == AddTo(es, Contents(st))
  {
    if es != [] {
      var n := |es| - 1;
      SafeIsExact(may, st, es[..n]);
      AppendKeepsSafe(may, AppendAll(st, es[..n]), es[n]);
      AppendIsAddOne(may, AppendAll(st, es[..n]), es[n]);
    }
  }

  // ---------------------------------------------------------------- and when not

  lemma OneField<A>(st: Slots<A>, f: Field)
    requires Ok(st)
    ensures AppendAll(st, [f]) == Append(st, f) && AddTo([f], Contents(st)) == AddOne(Contents(st), f)
  {
    assert [f][..0] == [];
    assert AppendAll(st, []) == st && AddTo([], Contents(st)) == Contents(st);
  }

  lemma TwoFields<A>(st: Slots<A>, f: Field, g: Field)
    requires Ok(st)
    ensures AppendAll(st, [f, g]) == Append(Append(st, f), g)
    ensures AddTo([f, g], Contents(st)) == AddOne(AddOne(Contents(st), f), g)
  {
    hide Append, AddOne;
    assert [f, g][..1] == [f];
    OneField(st, f);
  }

  /** Appending to the shorter of two slices in one array overwrites a value of the longer. */
  lemma ShorterOverwrites<A>(st: Slots<A>, j: string, k: string) returns (f: Field)
    requires Ok(st) && Sharing(st, j, k) && st.slots[j].len < st.slots[k].len
    ensures f.name == j && f.values != []
    ensures Contents(AppendAll(st, [f])) != AddTo([f], Contents(st))
  {
    var arr, len := st.slots[j].arr, st.slots[j].len;
    f := Field(j, [st.mem[arr][len] + "x"]);
    OneField(st, f);
    var r := Append(st, f);
    assert Values(r, k)[len] == st.mem[arr][len] + "x" != Values(st, k)[len];
    assert Contents(r)[k] != AddOne(Contents(st), f)[k];
  }

  /** Of two slices of one length in one array with spare capacity, the second append overwrites the first. */
  lemma SecondOverwrites<A>(st: Slots<A>, j: string, k: string)
    requires Ok(st) && Sharing(st, j, k) && st.slots[j].len == st.slots[k].len && Spare(st, j)
    ensures var es := [Field(j, ["first"]), Field(k, ["second"])];
            Contents(AppendAll(st, es)) != AddTo(es, Contents(st))
  {
    var f, g := Field(j, ["first"]), Field(k, ["second"]);
    var len := st.slots[j].len;
    TwoFields(st, f, g);
    var once, r := Append(st, f), Append(Append(st, f), g);
    assert Values(r, j)[len] == "second";
    assert AddOne(AddOne(Contents(st), f), g)[j][len] == "first";
    assert Contents(r)[j] != AddOne(AddOne(Contents(st), f), g)[j];
  }

  /** The names a Header can have. */
  function Canonical(canon: Canon): string -> bool {
    n => canon(n) == n
  }

  /** AddTo of this Header leaves what it should. */
  ghost predicate Exact<A>(st: Slots<A>, es: seq<Field>)
    requires Ok(st)
  {
    Contents(AppendAll(st, es)) == AddTo(es, Contents(st))
  }

  lemma Misses<A>(canon: Canon, st: Slots<A>) returns (es: seq<Field>)
    requires Ok(st) && !Safe(Canonical(canon), st)
    ensures Valid(canon, es) && !Exact(st, es)
  {
    var j, k :| Sharing(st, j, k) && Canonical(canon)(j) && Spare(st, j)
                && (Canonical(canon)(k) || st.slots[k].len > st.slots[j].len);
    if st.slots[j].len < st.slots[k].len {
      var f := ShorterOverwrites(st, j, k);
      es := [f];
    } else if st.slots[k].len < st.slots[j].len {
      var f := ShorterOverwrites(st, k, j);
      es := [f];
    } else {
      LessTotal(j, k);
      if Less(j, k) {
        SecondOverwrites(st, j, k);
        es := [Field(j, ["first"]), Field(k, ["second"])];
      } else {
        SecondOverwrites(st, k, j);
        es := [Field(k, ["first"]), Field(j, ["second"])];
      }
    }
  }

  /**
   AddTo leaves the specified contents, for every Header, if and only if the map is safe: a slice under
   a canonical name with spare capacity shares its array at most with slices, no longer than it, under
   names that are not canonical.
   */
  lemma AddToExactIff<A>(canon: Canon, st: Slots<A>)
    requires Ok(st)
    ensures (forall es | Valid(canon, es) :: Exact(st, es)) <==> Safe(Canonical(canon), st)
  {
    if Safe(Canonical(canon), st) {
      forall es | Valid(canon, es)
        ensures Exact(st, es)
      {
        SafeIsExact(Canonical(canon), st, es);
      }
    } else {
      var es := Misses(canon, st);
    }
  }
}

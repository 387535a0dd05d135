/**
 The Header operations as they run: slices over explicit backing arrays with a length and a
 capacity, a binary search, an in-place shift into spare capacity, and value slices shared
 between clones.  The methods are shown to compute the functions of HeaderSpec and
 HeaderAlgebra, never to reslice beyond the capacity, and to write only to arrays of their
 own, so that every Header built before stays as it was.

 A slice starts at offset zero of its array; the capacity is the length of the array.
 */
module HeaderSlices {
  import opened HeaderSpec

  /** A slice of strings; a nil slice has no array. */
  datatype Strings = Strings(arr: array?<string>, len: nat) {
    ghost predicate Ok() {
      if arr == null then len == 0 else len <= arr.Length
    }
  }

  ghost function Elements(s: Strings): seq<string>
    requires s.Ok()
    reads s.arr
  {
    if s.arr == null then [] else s.arr[..s.len]
  }

  datatype Entry = Entry(name: string, values: Strings)

  /** The struct Header: a slice of entries. */
  datatype Header = Header(arr: array?<Entry>, len: nat)

  const EMPTY_HEADER := Header(null, 0)

  /** The slices lie within their arrays. */
  ghost predicate Backed(h: Header)
    reads h.arr
  {
    if h.arr == null then h.len == 0
    else h.len <= h.arr.Length && AllOk(h.arr[..h.len])
  }

  ghost function Entries(h: Header): seq<Entry>
    requires Backed(h)
    reads h.arr
  {
    if h.arr == null then [] else h.arr[..h.len]
  }

  ghost function ValueArrays(entries: seq<Entry>): set<object?> {
    set e | e in entries :: e.values.arr as object?
  }

  /** Every array a Header reads from. */
  ghost function Arrays(h: Header): set<object?>
    requires Backed(h)
    reads h.arr
  {
    {h.arr} + ValueArrays(Entries(h))
  }

  ghost predicate AllOk(entries: seq<Entry>) {
    forall i | 0 <= i < |entries| :: entries[i].values.Ok()
  }

  /** The fields that entries stand for. */
  ghost function Fields(entries: seq<Entry>): (fields: seq<Field>)
    requires AllOk(entries)
    reads ValueArrays(entries)
    ensures |fields| == |entries|
    ensures forall i | 0 <= i < |entries| :: fields[i] == Field(entries[i].name, Elements(entries[i].values))
  {
    seq(|entries|, i requires 0 <= i < |entries| && entries[i].values.Ok() reads ValueArrays(entries) =>
      Field(entries[i].name, Elements(entries[i].values)))
  }

  /** What a Header shows. */
  ghost function View(h: Header): seq<Field>
    requires Backed(h)
    reads h.arr, Arrays(h)
  {
    Fields(Entries(h))
  }

  // ---------------------------------------------------------------- headers.clone and headers.add

  /** A distinct copy of the entries, sharing the value slices, with at least the given capacity. */
  method Clone(h: Header, minCap: nat) returns (c: Header)
    requires Backed(h)
    ensures c.arr != null && fresh(c.arr) && c.len == h.len
    ensures Backed(c) && Entries(c) == Entries(h) && View(c) == View(h)
    ensures c.arr.Length == if h.len < minCap then minCap else h.len
  {
    var capacity := if h.len < minCap then minCap else h.len;
    var arr := new Entry[capacity](_ => Entry("", Strings(null, 0)));
    forall i | 0 <= i < h.len {
      arr[i] := h.arr[i];
    }
    c := Header(arr, h.len);
  }

  /** sort.Search for the least index whose name is not below the given one. */
  method Search(h: Header, name: string) returns (p: nat)
    requires Backed(h) && Sorted(View(h))
    ensures p == Position(View(h), name)
  {
    ghost var es := View(h);
    var i, j := 0, h.len;
    while i < j
      invariant 0 <= i <= j <= h.len
      invariant i > 0 ==> Less(es[i - 1].name, name)
      invariant j < h.len ==> !Less(es[j].name, name)
    {
      var m := (i + j) / 2;
      if Less(h.arr[m].name, name) {
        i := m + 1;
      } else {
        j := m;
      }
    }
    p := i;
    PositionBetween(es, name, p);
  }

  /** A new slice holding the values of one slice followed by those of another. */
  method Merge(a: Strings, b: Strings) returns (s: Strings)
    requires a.Ok() && b.Ok()
    ensures s.Ok() && s.arr != null && fresh(s.arr) && s.len == s.arr.Length
    ensures Elements(s) == Elements(a) + Elements(b)
  {
    var all := (if a.arr == null then [] else a.arr[..a.len]) + (if b.arr == null then [] else b.arr[..b.len]);
    var arr := new string[|all|](i requires 0 <= i < |all| => all[i]);
    s := Strings(arr, |all|);
  }

  /** Grow by one entry, shift the tail up in place, and clear the values of the freed entry. */
  method OpenGap(h: Header, p: nat) returns (r: Header)
    requires Backed(h) && h.arr != null && p <= h.len < h.arr.Length
    modifies h.arr
    ensures r == Header(h.arr, h.len + 1) && h.arr[p].values == Strings(null, 0)
    ensures h.arr[..r.len] == old(Entries(h))[..p] + [h.arr[p]] + old(Entries(h))[p..]
  {
    r := Header(h.arr, h.len + 1);
    forall i | p < i <= h.len {
      h.arr[i] := h.arr[i - 1];
    }
    h.arr[p] := Entry(h.arr[p].name, Strings(null, 0));
  }

  /** The entries with the given values at `p`, in the entry of that name or in a new one. */
  function PutAt(entries: seq<Entry>, p: nat, key: string, values: Strings): seq<Entry>
    requires p <= |entries|
  {
    if p < |entries| && entries[p].name == key then entries[p := Entry(key, values)]
    else entries[..p] + [Entry(key, values)] + entries[p..]
  }

  /** The values that the entry at `p` already holds for the name. */
  function HeldAt(entries: seq<Entry>, p: nat, key: string): Strings
    requires p <= |entries|
  {
    if p < |entries| && entries[p].name == key then entries[p].values else Strings(null, 0)
  }

  lemma PutAtFields(entries: seq<Entry>, p: nat, key: string, merged: Strings, values: seq<string>)
    requires p <= |entries| && AllOk(entries) && merged.Ok()
    requires Elements(merged) == Elements(HeldAt(entries, p, key)) + values
    ensures AllOk(PutAt(entries, p, key, merged))
    ensures Fields(PutAt(entries, p, key, merged)) == InsertAt(Fields(entries), p, key, values)
  {
    assert [] + values == values;
  }

  /** Make room for an entry of the given name at `p`, then write it with the merged values. */
  method AddAt(h: Header, p: nat, key: string, values: Strings)
    returns (r: Header, panicked: bool, ghost merged: Strings)
    requires Backed(h) && p <= h.len && h.arr != null && values.Ok()
    modifies h.arr
    ensures panicked <==> h.len == h.arr.Length && !(p < h.len && old(h.arr[p].name) == key)
    ensures panicked ==> r == h && h.arr[..] == old(h.arr[..])
    ensures !panicked ==> r.arr == h.arr && h.len <= r.len <= h.len + 1 && r.len <= h.arr.Length
    ensures !panicked ==> h.arr[..r.len] == PutAt(old(Entries(h)), p, key, merged)
    ensures !panicked ==> merged.Ok() && fresh(merged.arr)
    ensures !panicked ==> Elements(merged) == old(Elements(HeldAt(Entries(h), p, key))) + old(Elements(values))
  {
    ghost var was := Entries(h);
    r := h;
    if p == h.len || h.arr[p].name != key {
      if h.len == h.arr.Length {
        return h, true, Strings(null, 0);
      }
      r := OpenGap(h, p);
    }
    assert r.arr[p].values == HeldAt(was, p, key);
    r.arr[p] := Entry(key, r.arr[p].values);
    var all := Merge(r.arr[p].values, values);
    r.arr[p] := Entry(key, all);
    panicked, merged := false, all;
  }

  /** No entry at `p` has the name. */
  predicate AbsentAt(es: seq<Field>, p: nat, name: string)
    requires p <= |es|
  {
    p == |es| || es[p].name != name
  }

  /** The value arrays are none of the given ones. */
  ghost predicate Avoids(entries: seq<Entry>, foreign: set<array<string>>) {
    forall i | 0 <= i < |entries| :: entries[i].values.arr != null ==> entries[i].values.arr !in foreign
  }

  method AddView(h: Header, p: nat, key: string, values: Strings, ghost foreign: set<array<string>>)
    returns (r: Header, panicked: bool)
    requires Backed(h) && p <= h.len && h.arr != null && values.Ok()
    modifies h.arr
    ensures panicked <==> h.len == h.arr.Length && old(AbsentAt(View(h), p, key))
    ensures panicked ==> r == h && h.arr[..] == old(h.arr[..])
    ensures !panicked ==> r.arr == h.arr && h.len <= r.len <= h.len + 1 && Backed(r)
    ensures !panicked ==> View(r) == InsertAt(old(View(h)), p, key, old(Elements(values)))
    ensures !panicked && Avoids(old(Entries(h)), foreign) ==> Avoids(Entries(r), foreign)
  {
    ghost var was, vs := Entries(h), Elements(values);
    ghost var merged: Strings;
    r, panicked, merged := AddAt(h, p, key, values);
    if !panicked {
      assert Elements(HeldAt(was, p, key)) == old(Elements(HeldAt(was, p, key)));
      PutAtFields(was, p, key, merged, vs);
      assert Fields(was) == old(Fields(was));
      assert Entries(r) == PutAt(was, p, key, merged);
    }
  }

  /**
   headers.add, in place.  It panics exactly when a new entry is needed and no capacity is
   left; otherwise the entries become what the specification says.  Only the backing array
   of entries is written, and values are only ever shared with the entries there were:
   the result stays clear of any `foreign` array that the entries stayed clear of.
   */
  method Add(canon: Canon, h: Header, name: string, values: Strings, ghost foreign: set<array<string>>)
    returns (r: Header, panicked: bool)
    requires Backed(h) && Sorted(View(h)) && h.arr != null && values.Ok()
    modifies h.arr
    ensures panicked <==>
              && values.len > 0 && h.len == h.arr.Length
              && old(AbsentAt(View(h), Position(View(h), canon(name)), canon(name)))
    ensures panicked ==> r == h && h.arr[..] == old(h.arr[..])
    ensures !panicked ==> r.arr == h.arr && h.len <= r.len <= h.len + 1 && Backed(r)
    ensures !panicked ==> View(r) == HeaderSpec.Add(canon, old(View(h)), name, old(Elements(values)))
    ensures !panicked && Avoids(old(Entries(h)), foreign) ==> Avoids(Entries(r), foreign)
  {
    if values.len == 0 {
      return h, false;
    }
    ghost var es, vs, was := View(h), Elements(values), Entries(h);
    var key := canon(name);
    var p := Search(h, key);
    assert View(h) == es && Elements(values) == vs && Entries(h) == was;
    r, panicked := AddView(h, p, key, values, foreign);
  }
}

/**
 The header checker of httpmock: a matcher by length and membership, and an asserter that
 compares the two lists as multisets.  Their documentation promises that they accept the same
 requests; they do exactly when the expected list has no duplicates.
 */
module RequestChecker {
  /** What Match computes. */
  ghost predicate Matches(expected: seq<string>, actual: seq<string>) {
    |expected| == |actual| && forall i | 0 <= i < |expected| :: expected[i] in actual
  }

  /** What the asserter accepts: the same values, the same number of times each, in any order. */
  ghost predicate ElementsMatch(expected: seq<string>, actual: seq<string>) {
    multiset(expected) == multiset(actual)
  }

  ghost predicate Distinct(s: seq<string>) {
    forall i, j | 0 <= i < j < |s| :: s[i] != s[j]
  }

  method Match(expected: seq<string>, actual: seq<string>) returns (ok: bool)
    ensures ok <==> Matches(expected, actual)
    ensures ElementsMatch(expected, actual) ==> ok
    ensures Distinct(expected) ==> (ok <==> ElementsMatch(expected, actual))
  {
    if ElementsMatch(expected, actual) {
      SameElementsMatch(expected, actual);
    }
    if Distinct(expected) {
      MatchIsElementsMatch(expected, actual);
    }
    if |expected| != |actual| {
      return false;
    } else if |actual| == 0 {
      return true;
    }
    var actualSet: set<string> := {};
    for i := 0 to |actual|
      invariant forall v :: v in actualSet <==> v in actual[..i]
    {
      actualSet := actualSet + {actual[i]};
    }
    assert actual[..|actual|] == actual;
    for i := 0 to |expected|
      invariant forall k | 0 <= k < i :: expected[k] in actual
    {
      if expected[i] !in actualSet {
        return false;
      }
    }
    return true;
  }

  /** Equal multisets always match. */
  lemma SameElementsMatch(expected: seq<string>, actual: seq<string>)
    requires ElementsMatch(expected, actual)
    ensures Matches(expected, actual)
  {
    assert |expected| == |multiset(expected)| == |multiset(actual)| == |actual|;
    forall i | 0 <= i < |expected|
      ensures expected[i] in actual
    {
      assert expected[i] in multiset(actual);
    }
  }

  /** The pigeonhole: a duplicate-free list inside another of the same length is a permutation of it. */
  lemma {:induction false} MatchIsElementsMatch(expected: seq<string>, actual: seq<string>)
    requires Distinct(expected)
    ensures Matches(expected, actual) <==> ElementsMatch(expected, actual)
    decreases |expected|
  {
    if ElementsMatch(expected, actual) {
      SameElementsMatch(expected, actual);
    }
    if Matches(expected, actual) && expected != [] {
      var k :| 0 <= k < |actual| && actual[k] == expected[0];
      var others := actual[..k] + actual[k + 1..];
      forall i | 0 <= i < |expected[1..]|
        ensures expected[1..][i] in others
      {
        var j :| 0 <= j < |actual| && actual[j] == expected[i + 1];
        assert j != k;
        assert others[if j < k then j else j - 1] == actual[j];
      }
      MatchIsElementsMatch(expected[1..], others);
      assert expected == [expected[0]] + expected[1..];
      assert actual == actual[..k] + [actual[k]] + actual[k + 1..];
    }
  }

  /** With a duplicate, some list of values is matched and refused by the asserter. */
  lemma DuplicateFooled(expected: seq<string>, i: nat, j: nat) returns (actual: seq<string>)
    requires i < j < |expected| && expected[i] == expected[j]
    ensures Matches(expected, actual) && !ElementsMatch(expected, actual)
  {
    var other := expected[j] + "x";
    actual := expected[j := other];
    forall k | 0 <= k < |expected|
      ensures expected[k] in actual
    {
      assert actual[if k == j then i else k] == expected[k];
    }
    assert multiset(actual) == multiset(expected)[expected[j] := multiset(expected)[expected[j]] - 1]
                                 [other := multiset(expected)[other] + 1];
    assert multiset(actual)[other] == multiset(expected)[other] + 1;
  }

  /** The matcher and the asserter agree on every request if and only if no expected value is repeated. */
  lemma AgreeIffDistinct(expected: seq<string>)
    ensures (forall actual :: Matches(expected, actual) <==> ElementsMatch(expected, actual)) <==> Distinct(expected)
  {
    if Distinct(expected) {
      forall actual
        ensures Matches(expected, actual) <==> ElementsMatch(expected, actual)
      {
        MatchIsElementsMatch(expected, actual);
      }
    } else {
      var i, j :| 0 <= i < j < |expected| && expected[i] == expected[j];
      var actual := DuplicateFooled(expected, i, j);
    }
  }
}

/** Sequences without repetition, and the sets of their members. */
module Collections {
  predicate Distinct<T(==)>(s: seq<T>) {
    forall i, j :: 0 <= i < j < |s| ==> s[i] != s[j]
  }

  function Members<T>(s: seq<T>): set<T> {
    if s == [] then {} else Members(s[..|s| - 1]) + {s[|s| - 1]}
  }

  lemma {:induction false} MemberOf<T>(s: seq<T>, x: T)
    ensures x in Members(s) <==> x in s
  {
    if s == [] {
    } else {
      MemberOf(s[..|s| - 1], x);
      assert s == s[..|s| - 1] + [s[|s| - 1]];
    }
  }

  lemma {:induction false} MembersCount<T>(s: seq<T>)
    requires Distinct(s)
    ensures |Members(s)| == |s|
  {
    if s == [] {
    } else {
      MembersCount(s[..|s| - 1]);
      MemberOf(s[..|s| - 1], s[|s| - 1]);
    }
  }

  lemma DistinctSplits<T>(s: seq<T>, x: T)
    ensures Distinct(s + [x]) <==> Distinct(s) && forall i :: 0 <= i < |s| ==> s[i] != x
  {
    var all := s + [x];
    if Distinct(all) {
      forall i, j | 0 <= i < j < |s| ensures s[i] != s[j] { assert all[i] == s[i] && all[j] == s[j]; }
      forall i | 0 <= i < |s| ensures s[i] != x { assert all[i] == s[i] && all[|s|] == x; }
    }
  }

  lemma SameSizeSubset<T>(x: set<T>, y: set<T>)
    requires x <= y && |x| == |y|
    ensures x == y
  {
    assert y == x + (y - x);
    assert |y| == |x| + |y - x|;
  }
}

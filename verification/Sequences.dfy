/** Sequences without repetition. */
module Sequences {
  ghost predicate AllDistinct<T>(s: seq<T>) { forall i, j :: 0 <= i < j < |s| ==> s[i] != s[j] }

  lemma DistinctJoin<T>(a: seq<T>, b: seq<T>)
    requires AllDistinct(a) && AllDistinct(b) && forall x :: x in a ==> x !in b
    ensures AllDistinct(a + b)
  {
    forall i, j | 0 <= i < j < |a + b| ensures (a + b)[i] != (a + b)[j] {
      if i < |a| <= j { assert a[i] in a && b[j - |a|] in b; }
    }
  }

  /** A list of exactly the numbers from lo to hi, each once, has hi - lo entries. */
  lemma {:induction false} RangeSize(s: seq<int>, lo: int, hi: int)
    requires lo <= hi && AllDistinct(s) && forall j :: j in s <==> lo <= j < hi
    ensures |s| == hi - lo
    decreases hi - lo
  {
    assert s != [] ==> s[0] in s;
    if lo < hi {
      assert hi - 1 in s;
      var k :| 0 <= k < |s| && s[k] == hi - 1;
      var rest := s[..k] + s[k + 1..];
      forall j ensures j in rest <==> lo <= j < hi - 1 {
        if j in rest {
          var m :| 0 <= m < |rest| && rest[m] == j;
          assert s[if m < k then m else m + 1] == j;
          assert j in s;
        }
        if lo <= j < hi - 1 {
          assert j in s;
          var m :| 0 <= m < |s| && s[m] == j;
          assert rest[if m < k then m else m - 1] == j;
        }
      }
      RangeSize(rest, lo, hi - 1);
    }
  }

  lemma Regroup<T>(a: seq<T>, b: seq<T>, c: seq<T>)
    ensures a + (b + c) == (a + b) + c
  {}
}

/** What the three stages of the evidence pipeline have in common. */
module Records {
  import opened Options
  import opened Text

  datatype ClaimKind = Fact | Reasoning | Recommendation | Uncertainty
  datatype Freshness = Current | Stable | UnknownFreshness
  datatype SourceKind = Official | Repository | ToolSource | UserProvided | Web | Other
  datatype ToolStatus = Success | Failure | Cancelled
  datatype ToolEffect = Read | Write | NoEffect

  predicate UnitInterval(x: real) { 0.0 <= x <= 1.0 }

  /** An optional text field: absent, or not blank. */
  predicate AbsentOrNonBlank(s: Option<string>) { s.Some? ==> NonBlank(s.value) }

  predicate NonBlankList(s: seq<string>) { forall i :: 0 <= i < |s| ==> NonBlank(s[i]) }

  function Filter<T>(s: seq<T>, p: T -> bool): (r: seq<T>)
    ensures forall x :: x in r ==> x in s && p(x)
  {
    if s == [] then []
    else (if p(s[0]) then [s[0]] else []) + Filter(s[1..], p)
  }

  function Map<T, U>(s: seq<T>, f: T --> U): (r: seq<U>)
    requires forall x :: x in s ==> f.requires(x)
    ensures |r| == |s| && forall i :: 0 <= i < |s| ==> r[i] == f(s[i])
  {
    seq(|s|, i requires 0 <= i < |s| => f(s[i]))
  }

  lemma {:induction false} FilterKeeps<T>(s: seq<T>, p: T -> bool, x: T)
    requires x in s && p(x)
    ensures x in Filter(s, p)
  {
    if s[0] != x { FilterKeeps(s[1..], p, x); }
  }

  lemma {:induction false} FilterAppend<T>(a: seq<T>, b: seq<T>, p: T -> bool)
    ensures Filter(a + b, p) == Filter(a, p) + Filter(b, p)
  {
    if a == [] {
      assert a + b == b;
    } else {
      assert (a + b)[1..] == a[1..] + b;
      FilterAppend(a[1..], b, p);
    }
  }

  /** The keys of a list are pairwise different. */
  ghost predicate DistinctBy<T, K>(s: seq<T>, key: T -> K) {
    forall i, j :: 0 <= i < j < |s| ==> key(s[i]) != key(s[j])
  }

  lemma {:induction false} DistinctCons<T, K>(x: T, t: seq<T>, key: T -> K)
    requires DistinctBy(t, key) && forall y :: y in t ==> key(y) != key(x)
    ensures DistinctBy([x] + t, key)
  {
    assert forall i :: 0 < i < |t| + 1 ==> ([x] + t)[i] == t[i - 1] && t[i - 1] in t;
  }

  /** A filtered list keeps distinct keys distinct. */
  lemma {:induction false} FilterDistinct<T, K>(s: seq<T>, p: T -> bool, key: T -> K)
    requires DistinctBy(s, key)
    ensures DistinctBy(Filter(s, p), key)
  {
    if s != [] {
      FilterDistinct(s[1..], p, key);
      var t := Filter(s[1..], p);
      forall x | x in t ensures key(x) != key(s[0]) {
        var k :| 0 < k < |s| && s[k] == x;
      }
      DistinctCons(s[0], t, key);
      assert Filter(s, p) == if p(s[0]) then [s[0]] + t else t;
    }
  }
}

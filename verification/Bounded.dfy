/** Insertion-ordered sets with a size limit (src/activity/lifecycle.ts:321-339). */
module Bounded {
  import opened Common

  /** `s` without `x`. */
  function Without<T(==)>(s: seq<T>, x: T): seq<T> {
    if s == [] then []
    else if s[0] == x then Without(s[1..], x)
    else [s[0]] + Without(s[1..], x)
  }

  /** The newest `limit` elements. */
  function Newest<T>(s: seq<T>, limit: nat): seq<T> {
    if |s| <= limit then s else s[|s| - limit..]
  }

  /** `addBounded`: `x` becomes the newest element, and the oldest ones go. */
  function Added<T(==)>(s: seq<T>, x: T, limit: nat): seq<T> {
    Newest(Without(s, x) + [x], limit)
  }

  lemma {:induction false} WithoutMember<T>(s: seq<T>, x: T)
    ensures forall y :: y in Without(s, x) <==> y in s && y != x
    ensures |Without(s, x)| <= |s|
  {
    if s != [] {
      WithoutMember(s[1..], x);
      assert s == [s[0]] + s[1..];
    }
  }

  lemma {:induction false} WithoutAbsent<T>(s: seq<T>, x: T)
    requires x !in s
    ensures Without(s, x) == s
  {
    if s != [] {
      WithoutAbsent(s[1..], x);
    }
  }

  lemma {:induction false} WithoutDistinct<T>(s: seq<T>, x: T)
    requires Distinct(s)
    ensures Distinct(Without(s, x))
    ensures |Without(s, x)| == if x in s then |s| - 1 else |s|
  {
    if s != [] {
      WithoutDistinct(s[1..], x);
      if s[0] == x {
        assert x !in s[1..];
      } else {
        WithoutMember(s[1..], x);
        assert s[0] !in s[1..];
      }
    }
  }

  /** Removing keeps the order of what stays. */
  lemma {:induction false} WithoutSplits<T>(s: seq<T>, x: T, k: nat)
    requires Distinct(s) && k < |s| && s[k] == x
    ensures Without(s, x) == s[..k] + s[k + 1..]
  {
    if k == 0 {
      WithoutAbsent(s[1..], x);
    } else {
      WithoutSplits(s[1..], x, k - 1);
      assert s[..k] == [s[0]] + s[1..][..k - 1];
      assert s[1..][k..] == s[k + 1..];
    }
  }

  lemma AddedFits<T>(s: seq<T>, x: T, limit: nat)
    requires Distinct(s) && limit > 0
    ensures Distinct(Added(s, x, limit)) && |Added(s, x, limit)| <= limit
    ensures x in Added(s, x, limit)
    ensures forall y :: y in Added(s, x, limit) ==> y == x || y in s
  {
    WithoutDistinct(s, x);
    WithoutMember(s, x);
    var t := Without(s, x) + [x];
    assert Distinct(t);
    assert t[|t| - 1] == x;
    if |t| > limit {
      assert Newest(t, limit)[limit - 1] == x;
    }
  }

  /** Below the limit nothing is lost. */
  lemma AddedKeeps<T>(s: seq<T>, x: T, limit: nat)
    requires Distinct(s) && x !in s && |s| < limit
    ensures Added(s, x, limit) == s + [x]
  {
    WithoutAbsent(s, x);
  }
}

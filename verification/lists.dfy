/**
 The list operations the script builds from comprehensions and `map`:
 filtering, and mapping a step that may raise over a list, as
 `list(map(f, xs))` does.
 */
module Lists {
  import opened Wrappers

  /** `[x for x in s if p(x)]`. */
  function Filter<T(!new)>(s: seq<T>, p: T -> bool): (r: seq<T>)
    ensures |r| <= |s|
    ensures forall x :: x in r <==> x in s && p(x)
  {
    if s == [] then []
    else if p(s[0]) then [s[0]] + Filter(s[1..], p)
    else Filter(s[1..], p)
  }

  /** `list(map(f, s))` where `f` may raise: the first element, in list
      order, whose step fails decides the error; otherwise every element is
      mapped in place. */
  function MapResult<A, B>(s: seq<A>, f: A -> Result<B>): (r: Result<seq<B>>)
    ensures r.Success? <==> forall i :: 0 <= i < |s| ==> f(s[i]).Success?
    ensures r.Success? ==>
              && |r.value| == |s|
              && forall i :: 0 <= i < |s| ==> r.value[i] == f(s[i]).value
    ensures r.Failure? ==>
              exists i :: 0 <= i < |s| && f(s[i]) == Failure(r.error)
                          && forall j :: 0 <= j < i ==> f(s[j]).Success?
    decreases |s|
  {
    if s == [] then Success([])
    else
      match f(s[0])
      case Failure(e) => Failure(e)
      case Success(y) =>
        match MapResult(s[1..], f)
        case Failure(e) =>
          assert forall j :: 1 <= j < |s| ==> s[1..][j - 1] == s[j];
          Failure(e)
        case Success(ys) => Success([y] + ys)
  }

  /** Strictly increasing under `key`. */
  predicate IncreasingBy<T>(s: seq<T>, key: T -> int) {
    forall i, j :: 0 <= i < j < |s| ==> key(s[i]) < key(s[j])
  }

  /** Filtering keeps relative order, so it keeps a strictly increasing
      sequence strictly increasing. */
  lemma {:induction false} FilterKeepsIncreasing<T(!new)>(s: seq<T>, p: T -> bool, key: T -> int)
    requires IncreasingBy(s, key)
    ensures IncreasingBy(Filter(s, p), key)
    decreases |s|
  {
    if s != [] {
      var tail := Filter(s[1..], p);
      assert IncreasingBy(s[1..], key) by {
        forall i, j | 0 <= i < j < |s[1..]|
          ensures key(s[1..][i]) < key(s[1..][j])
        {
          assert s[1..][i] == s[i + 1] && s[1..][j] == s[j + 1];
        }
      }
      FilterKeepsIncreasing(s[1..], p, key);
      if p(s[0]) {
        forall m | 0 <= m < |tail|
          ensures key(s[0]) < key(tail[m])
        {
          assert tail[m] in tail;
          var k :| 0 <= k < |s[1..]| && s[1..][k] == tail[m];
          assert s[k + 1] == tail[m];
        }
        var r := [s[0]] + tail;
        forall i, j | 0 <= i < j < |r|
          ensures key(r[i]) < key(r[j])
        {
          assert r[j] == tail[j - 1];
          if i > 0 {
            assert r[i] == tail[i - 1];
          }
        }
      }
    }
  }

  /** When the predicate holds exactly on the positions `lo..hi`, filtering
      is slicing. */
  lemma {:induction false} FilterOfInterval<T(!new)>(s: seq<T>, p: T -> bool, lo: nat, hi: nat)
    requires lo <= hi <= |s|
    requires forall k :: 0 <= k < |s| ==> (p(s[k]) <==> lo <= k < hi)
    ensures Filter(s, p) == s[lo..hi]
    decreases |s|
  {
    if s != [] {
      var t := s[1..];
      assert forall k :: 0 <= k < |t| ==> t[k] == s[k + 1];
      if lo == 0 && hi == 0 {
        FilterOfInterval(t, p, 0, 0);
      } else if lo == 0 {
        FilterOfInterval(t, p, 0, hi - 1);
        assert s[0..hi] == [s[0]] + t[0..hi - 1];
      } else {
        FilterOfInterval(t, p, lo - 1, hi - 1);
        assert s[lo..hi] == t[lo - 1..hi - 1];
      }
    }
  }

  /** Filtering commutes with concatenation. */
  lemma {:induction false} FilterAppend<T(!new)>(a: seq<T>, b: seq<T>, p: T -> bool)
    ensures Filter(a + b, p) == Filter(a, p) + Filter(b, p)
    decreases |a|
  {
    if a == [] {
      assert a + b == b;
    } else {
      assert (a + b)[1..] == a[1..] + b;
      FilterAppend(a[1..], b, p);
    }
  }
}

/**
 * The JavaScript array methods the probe is built from (`find`, `some`,
 * `filter`, and `map` with a callback that may throw), as functions on
 * sequences. `find` rests on `FindIndex`, a `findIndex`. The order of what
 * `Filter` and `Somes` keep is stated by `FilterConcat` and `SomesConcat`.
 */
module ArrayOps {
  import opened Wrappers

  /** `findIndex`: the index of the first element satisfying `p` (None for -1). */
  function FindIndex<T>(p: T -> bool, s: seq<T>): (r: Option<nat>)
    ensures r.Some? ==> r.value < |s| && p(s[r.value])
    ensures r.Some? ==> forall k | 0 <= k < r.value :: !p(s[k])
    ensures r.None? ==> forall k | 0 <= k < |s| :: !p(s[k])
  {
    if s == [] then None
    else if p(s[0]) then Some(0)
    else
      match FindIndex(p, s[1..])
      case None => None
      case Some(k) => Some(k + 1)
  }

  /** `find`: the first element satisfying `p` (None for `undefined`). */
  function Find<T>(p: T -> bool, s: seq<T>): (r: Option<T>)
    ensures r.Some? <==> exists k | 0 <= k < |s| :: p(s[k])
    ensures r.Some? ==> exists k | 0 <= k < |s| && s[k] == r.value :: p(s[k]) && forall j | 0 <= j < k :: !p(s[j])
  {
    match FindIndex(p, s)
    case None => None
    case Some(k) => Some(s[k])
  }

  /** `some`: whether any element satisfies `p`. */
  function Any<T>(p: T -> bool, s: seq<T>): (r: bool)
    ensures r <==> exists k | 0 <= k < |s| :: p(s[k])
  {
    FindIndex(p, s).Some?
  }

  /** `filter`: the elements satisfying `p`, in their original order. */
  function Filter<T>(p: T -> bool, s: seq<T>): (r: seq<T>)
    ensures |r| <= |s|
    ensures forall k | 0 <= k < |r| :: p(r[k])
    ensures forall k | 0 <= k < |r| :: r[k] in s
    ensures forall k | 0 <= k < |s| && p(s[k]) :: s[k] in r
  {
    if s == [] then []
    else (if p(s[0]) then [s[0]] else []) + Filter(p, s[1..])
  }

  /** `filter((value) => value)` over values that are objects or `undefined`/`null`. */
  function Somes<T>(s: seq<Option<T>>): (r: seq<T>)
    ensures |r| <= |s|
    ensures forall k | 0 <= k < |r| :: Some(r[k]) in s
    ensures forall k | 0 <= k < |s| && s[k].Some? :: s[k].value in r
  {
    if s == [] then []
    else (match s[0] case Some(x) => [x] case None => []) + Somes(s[1..])
  }

  /**
   * `map` with a callback that may throw (also `Promise.all` over such a map):
   * all results, or the error of the first element that fails.
   */
  function MapResult<T, U, E>(f: T -> Result<U, E>, s: seq<T>): (r: Result<seq<U>, E>)
    ensures r.Ok? <==> forall k | 0 <= k < |s| :: f(s[k]).Ok?
    ensures r.Ok? ==> |r.value| == |s| && forall k | 0 <= k < |s| :: f(s[k]) == Ok(r.value[k])
    ensures r.Err? ==> exists k | 0 <= k < |s| :: f(s[k]) == Err(r.error) && forall j | 0 <= j < k :: f(s[j]).Ok?
  {
    if s == [] then Ok([])
    else
      match f(s[0])
      case Err(e) => Err(e)
      case Ok(y) =>
        match MapResult(f, s[1..])
        case Err(e) =>
          ghost var k :| 0 <= k < |s[1..]| && f(s[1..][k]) == Err(e) && forall j | 0 <= j < k :: f(s[1..][j]).Ok?;
          assert f(s[k + 1]) == Err(e);
          assert forall j | 0 <= j < k + 1 :: f(s[j]).Ok? by {
            forall j | 0 <= j < k + 1 ensures f(s[j]).Ok? {
              if j > 0 { assert s[j] == s[1..][j - 1]; }
            }
          }
          Err(e)
        case Ok(ys) => Ok([y] + ys)
  }

  /** `map` with a callback that cannot throw. */
  function Map<T, U>(f: T -> U, s: seq<T>): (r: seq<U>)
    ensures |r| == |s| && forall k | 0 <= k < |s| :: r[k] == f(s[k])
  {
    seq(|s|, k requires 0 <= k < |s| => f(s[k]))
  }

  lemma MapConcat<T, U>(f: T -> U, a: seq<T>, b: seq<T>)
    ensures Map(f, a + b) == Map(f, a) + Map(f, b)
  {
    assert forall k | 0 <= k < |a + b| :: Map(f, a + b)[k] == (Map(f, a) + Map(f, b))[k] by {
      forall k | 0 <= k < |a + b| ensures Map(f, a + b)[k] == (Map(f, a) + Map(f, b))[k] {
        if k >= |a| { assert (a + b)[k] == b[k - |a|]; }
      }
    }
  }

  /** `a` is a subsequence of `b`: `b` with some elements deleted. */
  ghost predicate IsSubsequence<T>(a: seq<T>, b: seq<T>)
    decreases |b|
  {
    a == [] || (b != [] && ((a[0] == b[0] && IsSubsequence(a[1..], b[1..])) || IsSubsequence(a, b[1..])))
  }

  /** Filtering splits over concatenation: kept elements keep their relative order. */
  lemma {:induction false} FilterConcat<T>(p: T -> bool, a: seq<T>, b: seq<T>)
    ensures Filter(p, a + b) == Filter(p, a) + Filter(p, b)
  {
    if a == [] {
      assert a + b == b;
    } else {
      assert (a + b)[1..] == a[1..] + b;
      FilterConcat(p, a[1..], b);
    }
  }

  lemma {:induction false} FilterIsSubsequence<T>(p: T -> bool, s: seq<T>)
    ensures IsSubsequence(Filter(p, s), s)
  {
    if s != [] {
      FilterIsSubsequence(p, s[1..]);
      if p(s[0]) {
        var r := Filter(p, s);
        assert r == [s[0]] + Filter(p, s[1..]);
        assert r[0] == s[0] && r[1..] == Filter(p, s[1..]);
      } else {
        assert Filter(p, s) == Filter(p, s[1..]);
      }
    }
  }

  /** Dropping the absent values splits over concatenation. */
  lemma {:induction false} SomesConcat<T>(a: seq<Option<T>>, b: seq<Option<T>>)
    ensures Somes(a + b) == Somes(a) + Somes(b)
  {
    if a == [] {
      assert a + b == b;
    } else {
      assert (a + b)[1..] == a[1..] + b;
      SomesConcat(a[1..], b);
    }
  }
}

/** Option and Result values, and the Python slice forms the repository relies on. */
module Common {

  datatype Option<T> = None | Some(value: T)

  datatype Result<T, E> = Ok(value: T) | Err(error: E)

  function Min(a: int, b: int): int { if a <= b then a else b }

  function Max(a: int, b: int): int { if a >= b then a else b }

  /** Python's `s[:k]`: the first k elements, or, for a negative k, all but the last -k. */
  function SlicePrefix<T>(s: seq<T>, k: int): (r: seq<T>)
    ensures |r| == (if k >= 0 then Min(k, |s|) else Max(0, |s| + k))
    ensures r == s[..|r|]
  {
    if k >= 0 then (if k <= |s| then s[..k] else s)
    else if |s| + k >= 0 then s[..|s| + k] else []
  }

  /** Python's `s[-k:]` for k >= 1 (and Redis `LTRIM key -k -1`): the last k elements, oldest first. */
  function LastN<T>(s: seq<T>, k: nat): (r: seq<T>)
    ensures |r| == Min(|s|, k)
    ensures r == s[|s| - |r|..]
  {
    if |s| <= k then s else s[|s| - k..]
  }

  /** Keeping the last k of (the last k of s) followed by x is keeping the last k of s + [x]. */
  lemma LastNAppend<T>(s: seq<T>, x: T, k: nat)
    requires k >= 1
    ensures LastN(LastN(s, k) + [x], k) == LastN(s + [x], k)
  {
    var t := LastN(s, k);
    if |s| <= k {
    } else {
      assert |t| == k;
      assert t + [x] == (s + [x])[|s| - k..];
      assert LastN(t + [x], k) == (t + [x])[1..];
      assert (s + [x])[|s| + 1 - k..] == (t + [x])[1..];
    }
  }

  /** Every element of s that takes part in the result, in order: s filtered by p. */
  function Filter<T>(s: seq<T>, p: T -> bool): (r: seq<T>)
    ensures |r| <= |s|
    ensures forall x :: x in r ==> x in s && p(x)
    ensures forall i :: 0 <= i < |s| && p(s[i]) ==> s[i] in r
  {
    if s == [] then [] else (if p(s[0]) then [s[0]] else []) + Filter(s[1..], p)
  }

  /** A filter keeps each element at most as often as s holds it. */
  lemma {:induction false} FilterSubMultiset<T>(s: seq<T>, p: T -> bool)
    ensures multiset(Filter(s, p)) <= multiset(s)
  {
    if s != [] {
      FilterSubMultiset(s[1..], p);
      assert s == [s[0]] + s[1..];
      assert multiset(s) == multiset([s[0]]) + multiset(s[1..]);
      assert Filter(s, p) == (if p(s[0]) then [s[0]] else []) + Filter(s[1..], p);
    }
  }

  /** A prefix repeats no element more often than the whole sequence holds it. */
  lemma SlicePrefixSubMultiset<T>(s: seq<T>, k: int)
    ensures multiset(SlicePrefix(s, k)) <= multiset(s)
  {
    var r := SlicePrefix(s, k);
    assert s == r + s[|r|..];
  }

  /** The positions of s at which f gives a value, in increasing order: the positions
      of the elements a filter on f keeps. */
  function SomeIndices<T, U>(s: seq<T>, f: T -> Option<U>): (r: seq<nat>)
    ensures forall k :: 0 <= k < |r| ==> r[k] < |s| && f(s[r[k]]).Some?
    ensures forall k, l :: 0 <= k < l < |r| ==> r[k] < r[l]
    ensures forall i :: 0 <= i < |s| && f(s[i]).Some? ==> i in r
  {
    if s == [] then []
    else
      var init := s[..|s| - 1];
      var r0 := SomeIndices(init, f);
      assert forall k :: 0 <= k < |r0| ==> s[r0[k]] == init[r0[k]];
      r0 + (if f(s[|s| - 1]).Some? then [|s| - 1] else [])
  }

  lemma FilterAppend<T>(a: seq<T>, b: seq<T>, p: T -> bool)
    ensures Filter(a + b, p) == Filter(a, p) + Filter(b, p)
  {
    if a == [] {
      assert a + b == b;
    } else {
      assert (a + b)[1..] == a[1..] + b;
      FilterAppend(a[1..], b, p);
    }
  }

  /** Filtering by two tests that agree on every element gives the same result. */
  lemma FilterSame<T>(s: seq<T>, p: T -> bool, p': T -> bool)
    requires forall i :: 0 <= i < |s| ==> p(s[i]) == p'(s[i])
    ensures Filter(s, p) == Filter(s, p')
  {
    if s != [] { FilterSame(s[1..], p, p'); }
  }

  lemma FilterAll<T>(s: seq<T>, p: T -> bool)
    requires forall i :: 0 <= i < |s| ==> p(s[i])
    ensures Filter(s, p) == s
  {
    if s != [] { FilterAll(s[1..], p); }
  }
}

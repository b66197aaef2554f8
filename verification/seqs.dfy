/**
 * Sequence helpers: the order-preserving filter that every contour loop and
 * every text clean-up of the detector performs, and Python's step-1 slice.
 */
module Seqs {

  /** The elements of `s` satisfying `f`, in order (a list comprehension with an `if`). */
  function Filter<T>(s: seq<T>, f: T -> bool): (r: seq<T>)
    ensures |r| <= |s|
    decreases |s|
  {
    if s == [] then []
    else Filter(s[..|s| - 1], f) + (if f(s[|s| - 1]) then [s[|s| - 1]] else [])
  }

  /** The positions of `s` whose elements satisfy `f`, in increasing order. */
  function KeptIndices<T>(s: seq<T>, f: T -> bool): (r: seq<nat>)
    decreases |s|
  {
    if s == [] then []
    else KeptIndices(s[..|s| - 1], f) + (if f(s[|s| - 1]) then [|s| - 1] else [])
  }

  predicate StrictlyIncreasing(idx: seq<nat>)
  {
    forall a, b :: 0 <= a < b < |idx| ==> idx[a] < idx[b]
  }

  /** The kept positions are valid and increasing. */
  lemma {:induction false} KeptIndicesIncreasing<T>(s: seq<T>, f: T -> bool)
    ensures forall k :: 0 <= k < |KeptIndices(s, f)| ==> KeptIndices(s, f)[k] < |s|
    ensures StrictlyIncreasing(KeptIndices(s, f))
    decreases |s|
  {
    if s != [] {
      KeptIndicesIncreasing(s[..|s| - 1], f);
    }
  }

  /** A position is kept exactly when its element satisfies `f`. */
  lemma {:induction false} KeptIndicesExact<T>(s: seq<T>, f: T -> bool)
    ensures forall i :: 0 <= i < |s| ==> (i in KeptIndices(s, f) <==> f(s[i]))
    decreases |s|
  {
    if s != [] {
      var init := s[..|s| - 1];
      KeptIndicesExact(init, f);
      KeptIndicesIncreasing(init, f);
      assert forall i :: 0 <= i < |init| ==> s[i] == init[i];
    }
  }

  /** The k-th kept element is the element at the k-th kept position. */
  lemma {:induction false} FilterAtKeptIndices<T>(s: seq<T>, f: T -> bool)
    ensures |Filter(s, f)| == |KeptIndices(s, f)|
    ensures forall k :: 0 <= k < |KeptIndices(s, f)| ==>
      KeptIndices(s, f)[k] < |s| && Filter(s, f)[k] == s[KeptIndices(s, f)[k]]
    decreases |s|
  {
    if s != [] {
      var init, last := s[..|s| - 1], s[|s| - 1];
      FilterAtKeptIndices(init, f);
      KeptIndicesIncreasing(init, f);
      var idx := KeptIndices(init, f);
      forall k | 0 <= k < |idx| ensures s[idx[k]] == init[idx[k]] {
      }
      if f(last) {
        assert Filter(s, f) == Filter(init, f) + [last];
        assert KeptIndices(s, f) == idx + [|s| - 1];
      } else {
        assert Filter(s, f) == Filter(init, f) + [];
        assert KeptIndices(s, f) == idx + [];
      }
    }
  }

  /**
   * `Filter(s, f)` is exactly the subsequence of `s` taken at the positions
   * where `f` holds: those positions, increasing, and nothing else.
   */
  lemma FilterCharacterization<T>(s: seq<T>, f: T -> bool)
    ensures var r, idx := Filter(s, f), KeptIndices(s, f);
      && |r| == |idx|
      && StrictlyIncreasing(idx)
      && (forall k :: 0 <= k < |idx| ==> idx[k] < |s| && r[k] == s[idx[k]])
      && (forall i :: 0 <= i < |s| ==> (i in idx <==> f(s[i])))
  {
    KeptIndicesIncreasing(s, f);
    KeptIndicesExact(s, f);
    FilterAtKeptIndices(s, f);
  }

  /** Every element the filter keeps satisfies `f` and comes from `s`. */
  lemma FilterSound<T>(s: seq<T>, f: T -> bool)
    ensures forall k :: 0 <= k < |Filter(s, f)| ==> f(Filter(s, f)[k]) && Filter(s, f)[k] in s
  {
    FilterCharacterization(s, f);
  }

  /** Every element of `s` that satisfies `f` is kept. */
  lemma {:induction false} FilterComplete<T>(s: seq<T>, f: T -> bool)
    ensures forall x :: x in s && f(x) ==> x in Filter(s, f)
    decreases |s|
  {
    if s != [] {
      var init := s[..|s| - 1];
      FilterComplete(init, f);
      assert s == init + [s[|s| - 1]];
    }
  }

  /** Filtering distributes over concatenation, so a loop may filter a prefix at a time. */
  lemma {:induction false} FilterAppend<T>(a: seq<T>, b: seq<T>, f: T -> bool)
    ensures Filter(a + b, f) == Filter(a, f) + Filter(b, f)
    decreases |b|
  {
    if b != [] {
      var b0 := b[..|b| - 1];
      assert (a + b)[..|a + b| - 1] == a + b0;
      assert (a + b)[|a + b| - 1] == b[|b| - 1];
      FilterAppend(a, b0, f);
    } else {
      assert a + b == a;
    }
  }

  /** Filtering `s` with one more element at the end. */
  lemma FilterSnoc<T>(s: seq<T>, y: T, f: T -> bool)
    ensures Filter(s + [y], f) == Filter(s, f) + (if f(y) then [y] else [])
  {
    assert (s + [y])[..|s|] == s;
  }

  /** Filtering one more element of `s`: the kept list grows by `s[i]` exactly when `f` keeps it. */
  lemma FilterExtend<T>(s: seq<T>, i: nat, f: T -> bool)
    requires i < |s|
    ensures Filter(s[..i + 1], f) == Filter(s[..i], f) + (if f(s[i]) then [s[i]] else [])
  {
    assert s[..i + 1] == s[..i] + [s[i]];
    FilterSnoc(s[..i], s[i], f);
  }

  /** Filtering a prefix of `s` gives a prefix of filtering `s`. */
  lemma FilterPrefix<T>(s: seq<T>, i: nat, f: T -> bool)
    requires i <= |s|
    ensures Filter(s[..i], f) <= Filter(s, f)
  {
    assert s == s[..i] + s[i..];
    FilterAppend(s[..i], s[i..], f);
  }

  function MinInt(a: int, b: int): int { if a <= b then a else b }
  function MaxInt(a: int, b: int): int { if a >= b then a else b }

  /** Python's normalisation of a slice bound `i` against a length `n` (negative counts from the end). */
  function PyIndex(i: int, n: nat): (k: nat)
    ensures k <= n
    ensures 0 <= i <= n ==> k == i
  {
    if i < 0 then (if i + n < 0 then 0 else i + n)
    else if i > n then n
    else i
  }

  /** `s[start:stop]` with Python's (and numpy's) step-1 slicing rules: clamped, never an error. */
  function Slice<T>(s: seq<T>, start: int, stop: int): (r: seq<T>)
    ensures var lo, hi := PyIndex(start, |s|), PyIndex(stop, |s|);
      |r| == (if lo <= hi then hi - lo else 0)
  {
    var lo, hi := PyIndex(start, |s|), PyIndex(stop, |s|);
    if lo <= hi then s[lo..hi] else []
  }

  /** `s[:k] + s[k:] == s` for every integer `k`, negative or out of range included. */
  lemma SliceSplit<T>(s: seq<T>, k: int)
    ensures Slice(s, 0, k) + Slice(s, k, |s|) == s
  {
    var m := PyIndex(k, |s|);
    assert Slice(s, 0, k) == s[..m];
    assert Slice(s, k, |s|) == s[m..];
  }

  /** A negative stop counts from the end: `s[:k]` for `-|s| <= k < 0` drops the last `-k` elements. */
  lemma SliceFromEnd<T>(s: seq<T>, k: int)
    requires -|s| <= k < 0
    ensures Slice(s, 0, k) == s[..|s| + k]
  {
  }

  /** A stop beyond either end is clamped: `s[:k]` is all of `s` for `k >= |s|`, and empty for `k < -|s|`. */
  lemma SliceClamped<T>(s: seq<T>, k: int)
    ensures k >= |s| ==> Slice(s, 0, k) == s
    ensures k < -|s| ==> Slice(s, 0, k) == []
  {
  }
}

/**
 * The ranking step of DsLima.py's `process_steps`: `list.sort` by area with
 * `reverse=True` (stable, so contours of equal area keep their discovery
 * order) followed by the slice `[:max_plates]`.
 */
module AreaRanking {
  import opened Seqs
  import opened Geometry

  predicate SortedByAreaDesc(s: seq<Contour>)
  {
    forall i, j :: 0 <= i < j < |s| ==> s[i].area >= s[j].area
  }

  /** Places `x` after every element of `t` whose area is at least `x.area`. */
  function InsertByArea(t: seq<Contour>, x: Contour): (r: seq<Contour>)
    ensures |r| == |t| + 1
    decreases |t|
  {
    if t == [] || t[|t| - 1].area >= x.area then t + [x]
    else InsertByArea(t[..|t| - 1], x) + [t[|t| - 1]]
  }

  /** Insertion sort from the front of the list; the reference definition of the stable descending sort. */
  function SortByAreaDesc(s: seq<Contour>): (r: seq<Contour>)
    ensures |r| == |s|
    decreases |s|
  {
    if s == [] then [] else InsertByArea(SortByAreaDesc(s[..|s| - 1]), s[|s| - 1])
  }

  /** The contours of area `a`, as a filter. */
  function AreaIs(a: real): Contour -> bool
  {
    (c: Contour) => c.area == a
  }

  lemma {:induction false} InsertPermutes(t: seq<Contour>, x: Contour)
    ensures multiset(InsertByArea(t, x)) == multiset(t) + multiset{x}
    decreases |t|
  {
    if !(t == [] || t[|t| - 1].area >= x.area) {
      InsertPermutes(t[..|t| - 1], x);
      assert t == t[..|t| - 1] + [t[|t| - 1]];
    }
  }

  lemma {:induction false} InsertKeepsOrder(t: seq<Contour>, x: Contour)
    requires SortedByAreaDesc(t)
    ensures SortedByAreaDesc(InsertByArea(t, x))
    decreases |t|
  {
    if !(t == [] || t[|t| - 1].area >= x.area) {
      var init, last := t[..|t| - 1], t[|t| - 1];
      InsertKeepsOrder(init, x);
      InsertPermutes(init, x);
      var u := InsertByArea(init, x);
      forall k | 0 <= k < |u| ensures u[k].area >= last.area {
        assert u[k] in multiset(u);
        if u[k] != x {
          assert u[k] in multiset(init);
          var m :| 0 <= m < |init| && init[m] == u[k];
          assert t[m] == u[k];
        }
      }
    }
  }

  /** Inserting `x` puts it after the earlier contours of its own area. */
  lemma {:induction false} InsertStable(t: seq<Contour>, x: Contour, a: real)
    ensures Filter(InsertByArea(t, x), AreaIs(a)) == Filter(t, AreaIs(a)) + Filter([x], AreaIs(a))
    decreases |t|
  {
    var f := AreaIs(a);
    if t == [] || t[|t| - 1].area >= x.area {
      FilterAppend(t, [x], f);
    } else {
      var init, last := t[..|t| - 1], t[|t| - 1];
      assert InsertByArea(t, x) == InsertByArea(init, x) + [last];
      assert t == init + [last];
      InsertStable(init, x, a);
      assert !(f(x) && f(last));
      MovePast(init, InsertByArea(init, x), x, last, f);
    }
  }

  /**
   * One step of `InsertStable`: moving `x` past a later element `last` that
   * `f` does not keep together with `x` leaves the filtered order unchanged.
   */
  lemma MovePast(init: seq<Contour>, u: seq<Contour>, x: Contour, last: Contour, f: Contour -> bool)
    requires Filter(u, f) == Filter(init, f) + Filter([x], f)
    requires !(f(x) && f(last))
    ensures Filter(u + [last], f) == Filter(init + [last], f) + Filter([x], f)
  {
    FilterSnoc(u, last, f);
    FilterSnoc(init, last, f);
    FilterSingleton(x, f);
    var A, X := Filter(init, f), Filter([x], f);
    if f(last) {
      assert X == [];
      assert Filter(u + [last], f) == A + [last];
      assert Filter(init + [last], f) + X == A + [last];
    } else {
      assert Filter(u + [last], f) == A + X;
      assert Filter(init + [last], f) == A;
    }
  }

  lemma FilterSingleton(x: Contour, f: Contour -> bool)
    ensures Filter([x], f) == if f(x) then [x] else []
  {
    assert [x][..0] == [];
  }

  /**
   * `SortByAreaDesc` is a stable descending sort: its output is ordered by
   * area, largest first, holds the same contours, and lists the contours of
   * any one area in the order of the input.
   */
  lemma {:induction false} SortSpec(s: seq<Contour>)
    ensures SortedByAreaDesc(SortByAreaDesc(s))
    ensures multiset(SortByAreaDesc(s)) == multiset(s)
    ensures forall a :: Filter(SortByAreaDesc(s), AreaIs(a)) == Filter(s, AreaIs(a))
    decreases |s|
  {
    if s != [] {
      var init, last := s[..|s| - 1], s[|s| - 1];
      SortSpec(init);
      InsertKeepsOrder(SortByAreaDesc(init), last);
      InsertPermutes(SortByAreaDesc(init), last);
      assert s == init + [last];
      forall a ensures Filter(SortByAreaDesc(s), AreaIs(a)) == Filter(s, AreaIs(a)) {
        InsertStable(SortByAreaDesc(init), last, a);
        FilterAppend(init, [last], AreaIs(a));
      }
    }
  }

  /** `s[:k]`. */
  function TopK(s: seq<Contour>, k: int): seq<Contour>
  {
    Slice(s, 0, k)
  }

  /** For `k < 0`, `s[:k]` drops the last `-k` elements, or all of them when `-k >= |s|`. */
  lemma TopKFromEnd(s: seq<Contour>, k: int)
    requires k < 0
    ensures -|s| <= k ==> TopK(s, k) == s[..|s| + k]
    ensures k < -|s| ==> TopK(s, k) == []
  {
    if -|s| <= k {
      SliceFromEnd(s, k);
    } else {
      SliceClamped(s, k);
    }
  }

  /** For `k >= 0`, `s[:k]` is the first `min(|s|, k)` elements. */
  lemma TopKPrefix(s: seq<Contour>, k: int)
    requires k >= 0
    ensures TopK(s, k) == s[..MinInt(|s|, k)]
  {
  }

  /** In a list sorted by area, every element of a prefix is at least as large as every element after it. */
  lemma PrefixDominates(s: seq<Contour>, m: nat)
    requires SortedByAreaDesc(s) && m <= |s|
    ensures forall c, d :: c in s[..m] && d in multiset(s) - multiset(s[..m]) ==> c.area >= d.area
  {
    forall c, d | c in s[..m] && d in multiset(s) - multiset(s[..m]) ensures c.area >= d.area {
      OutsidePrefix(s, m, d);
      var i :| 0 <= i < m && s[..m][i] == c;
      var j :| 0 <= j < |s| - m && s[m..][j] == d;
      assert s[i] == c && s[m + j] == d;
    }
  }

  /** An element left over once the prefix's multiset is taken away lies in the rest of the list. */
  lemma OutsidePrefix(s: seq<Contour>, m: nat, d: Contour)
    requires m <= |s| && d in multiset(s) - multiset(s[..m])
    ensures d in s[m..]
  {
    assert s == s[..m] + s[m..];
    assert multiset(s) == multiset(s[..m]) + multiset(s[m..]);
    assert d in multiset(s[m..]);
  }

  /** `sorted(kept)[:k]` for `k >= 0` is the first `min(|kept|, k)` contours of the sorted list. */
  lemma TopKShape(kept: seq<Contour>, k: int)
    requires k >= 0
    ensures var top := TopK(SortByAreaDesc(kept), k);
      && |top| == MinInt(|kept|, k)
      && top <= SortByAreaDesc(kept)
      && SortedByAreaDesc(top)
      && multiset(top) <= multiset(kept)
  {
    var s := SortByAreaDesc(kept);
    var m := MinInt(|kept|, k);
    SortSpec(kept);
    TopKPrefix(s, k);
    var top := s[..m];
    assert SortedByAreaDesc(top) by {
      forall i, j | 0 <= i < j < |top| ensures top[i].area >= top[j].area {
        assert top[i] == s[i] && top[j] == s[j];
      }
    }
    assert multiset(top) <= multiset(kept) by {
      assert s == top + s[m..];
      assert multiset(s) == multiset(top) + multiset(s[m..]);
    }
  }

  /** Every contour `sorted(kept)[:k]` keeps is at least as large as every contour it leaves out. */
  lemma TopKDominates(kept: seq<Contour>, k: int)
    requires k >= 0
    ensures var top := TopK(SortByAreaDesc(kept), k);
      forall c, d :: c in top && d in multiset(kept) - multiset(top) ==> c.area >= d.area
  {
    var s := SortByAreaDesc(kept);
    SortSpec(kept);
    TopKPrefix(s, k);
    PrefixDominates(s, MinInt(|kept|, k));
  }

  /** Among contours of equal area, `sorted(kept)[:k]` keeps the first ones discovered. */
  lemma TopKTies(kept: seq<Contour>, k: int, a: real)
    requires k >= 0
    ensures Filter(TopK(SortByAreaDesc(kept), k), AreaIs(a)) <= Filter(kept, AreaIs(a))
  {
    var s := SortByAreaDesc(kept);
    SortSpec(kept);
    TopKPrefix(s, k);
    FilterPrefix(s, MinInt(|kept|, k), AreaIs(a));
  }
}

/** Finite sums over sequences and maps, used to state conservation laws. */
module Sums {

  /** The sum of a sequence of integers. */
  function SumSeq(s: seq<int>): int {
    if s == [] then 0 else s[0] + SumSeq(s[1..])
  }

  lemma {:induction false} SumSeqAppend(s: seq<int>, t: seq<int>)
    ensures SumSeq(s + t) == SumSeq(s) + SumSeq(t)
  {
    if s == [] {
      assert s + t == t;
    } else {
      assert (s + t)[1..] == s[1..] + t;
      SumSeqAppend(s[1..], t);
    }
  }

  lemma SumSeqUpdate(s: seq<int>, i: nat, v: int)
    requires i < |s|
    ensures SumSeq(s[i := v]) == SumSeq(s) - s[i] + v
  {
    assert s == s[..i] + [s[i]] + s[i + 1..];
    assert s[i := v] == s[..i] + [v] + s[i + 1..];
    SumSeqAppend(s[..i] + [s[i]], s[i + 1..]);
    SumSeqAppend(s[..i] + [v], s[i + 1..]);
    SumSeqAppend(s[..i], [s[i]]);
    SumSeqAppend(s[..i], [v]);
  }

  lemma {:induction false} SumSeqOfEqualTerms(s: seq<int>, d: int)
    requires forall i :: 0 <= i < |s| ==> s[i] == d
    ensures SumSeq(s) == |s| * d
  {
    if s != [] {
      SumSeqOfEqualTerms(s[1..], d);
    }
  }

  lemma {:induction false} SumSeqBounded(s: seq<int>, lo: int, hi: int)
    requires forall i :: 0 <= i < |s| ==> lo <= s[i] <= hi
    ensures |s| * lo <= SumSeq(s) <= |s| * hi
  {
    if s != [] {
      SumSeqBounded(s[1..], lo, hi);
    }
  }

  /** The sum of the values of a map. */
  ghost function SumMap<K>(m: map<K, int>): int
    decreases |m|
  {
    if m == map[] then 0
    else
      var k :| k in m;
      m[k] + SumMap(m - {k})
  }

  /** Any key may be taken out first. */
  lemma {:induction false} SumMapRemove<K>(m: map<K, int>, k: K)
    requires k in m
    ensures SumMap(m) == m[k] + SumMap(m - {k})
    decreases |m|
  {
    var c :| c in m && SumMap(m) == m[c] + SumMap(m - {c});
    if c != k {
      SumMapRemove(m - {c}, k);
      SumMapRemove(m - {k}, c);
      assert m - {c} - {k} == m - {k} - {c};
    }
  }

  lemma SumMapSet<K>(m: map<K, int>, k: K, v: int)
    ensures SumMap(m[k := v]) == SumMap(m) - (if k in m then m[k] else 0) + v
  {
    SumMapRemove(m[k := v], k);
    if k in m {
      SumMapRemove(m, k);
      assert m[k := v] - {k} == m - {k};
    } else {
      assert m[k := v] - {k} == m;
    }
  }

  /** What each entry of `w` adds to the sum when `w` overwrites `m`. */
  function Gains<K>(m: map<K, int>, w: map<K, int>): map<K, int> {
    map k | k in w :: w[k] - if k in m then m[k] else 0
  }

  /** One more entry on both sides of `SumMapMerge`. */
  lemma MergeOneMore<K>(m: map<K, int>, w: map<K, int>, k: K, v: int)
    requires k !in w
    ensures SumMap(m + w[k := v]) - SumMap(m + w) == SumMap(Gains(m, w[k := v])) - SumMap(Gains(m, w))
  {
    assert m + w[k := v] == (m + w)[k := v];
    SumMapSet(m + w, k, v);
    var gain := v - if k in m then m[k] else 0;
    assert Gains(m, w[k := v]) == Gains(m, w)[k := gain];
    SumMapSet(Gains(m, w), k, gain);
  }

  lemma {:induction false} SumMapMerge<K>(m: map<K, int>, w: map<K, int>)
    ensures SumMap(m + w) == SumMap(m) + SumMap(Gains(m, w))
    decreases w.Keys
  {
    if w.Keys == {} {
      assert w == map[];
      assert m + w == m;
      assert Gains(m, w) == map[];
    } else {
      var k :| k in w.Keys;
      var fewer := w - {k};
      assert fewer[k := w[k]] == w;
      SumMapMerge(m, fewer);
      MergeOneMore(m, fewer, k, w[k]);
    }
  }

  lemma {:induction false} SumMapOfZeros<K>(m: map<K, int>)
    requires forall k :: k in m ==> m[k] == 0
    ensures SumMap(m) == 0
    decreases m.Keys
  {
    if m.Keys == {} {
      assert m == map[];
    } else {
      var k :| k in m.Keys;
      SumMapRemove(m, k);
      SumMapOfZeros(m - {k});
    }
  }

  function At<K>(m: map<K, int>, k: K): int { if k in m then m[k] else 0 }

  lemma AbsorbedBySum<K(!new)>(m: map<K, int>, n: map<K, int>)
    requires forall k :: At(m, k) == At(n, k)
    ensures SumMap(m + n) == SumMap(m)
  {
    SumMapMerge(m, n);
    forall k | k in Gains(m, n)
      ensures Gains(m, n)[k] == 0
    {
      assert At(m, k) == At(n, k);
    }
    SumMapOfZeros(Gains(m, n));
  }

  lemma MergeCommutes<K(!new)>(m: map<K, int>, n: map<K, int>)
    requires forall k :: At(m, k) == At(n, k)
    ensures m + n == n + m
  {
    forall k | k in m && k in n ensures m[k] == n[k] { assert At(m, k) == At(n, k); }
  }

  /** Entries that are zero do not matter. */
  lemma SumMapEqual<K(!new)>(m: map<K, int>, n: map<K, int>)
    requires forall k :: At(m, k) == At(n, k)
    ensures SumMap(m) == SumMap(n)
  {
    AbsorbedBySum(m, n);
    AbsorbedBySum(n, m);
    MergeCommutes(m, n);
  }

  /** The sum of differences is the difference of the sums. */
  lemma {:induction false} SumMapDifference<K>(m: map<K, int>, x: map<K, int>, y: map<K, int>)
    requires m.Keys == x.Keys == y.Keys
    requires forall k :: k in m ==> m[k] == x[k] - y[k]
    ensures SumMap(m) == SumMap(x) - SumMap(y)
    decreases m.Keys
  {
    if m.Keys == {} {
      assert m == map[] && x == map[] && y == map[];
    } else {
      var k :| k in m.Keys;
      SumMapRemove(m, k);
      SumMapRemove(x, k);
      SumMapRemove(y, k);
      SumMapDifference(m - {k}, x - {k}, y - {k});
    }
  }

  /** k times x, by repeated addition: for proofs that should not meet a product. */
  function Times(k: nat, x: int): (r: int)
    ensures x >= 0 ==> r >= 0
  {
    if k == 0 then 0 else Times(k - 1, x) + x
  }

  lemma {:induction false} TimesIsProduct(k: nat, x: int)
    ensures Times(k, x) == k * x
  {
    if k > 0 {
      TimesIsProduct(k - 1, x);
    }
  }

  lemma {:induction false} SumMapBounded<K>(m: map<K, int>, hi: int)
    requires forall k :: k in m ==> 0 <= m[k] <= hi
    ensures 0 <= SumMap(m) <= Times(|m.Keys|, hi)
    decreases m.Keys
  {
    if m.Keys == {} {
      assert m == map[];
    } else {
      var k :| k in m.Keys;
      SumMapRemove(m, k);
      SumMapBounded(m - {k}, hi);
      assert (m - {k}).Keys == m.Keys - {k};
      assert |m.Keys| == |m.Keys - {k}| + 1;
    }
  }
}

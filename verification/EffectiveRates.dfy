/**
 * The rate lookups of the write path. `rates(currency, date)` stands for the lookup "latest rate on or before
 * that date" (see the FxRates module); only the calendar date of a moment ever reaches it.
 */
module EffectiveRates {
  import opened Wrappers
  import opened Domain

  type RateLookup = (string, DateText) -> Option<real>

  datatype Pair = Pair(currency: string, on: Moment)

  datatype NoRate = NoRate(currency: string, date: DateText)

  /** `fxRateKey`. */
  function Key(p: Pair): (r: string) { p.currency + ":" + p.on.date }

  /** The date part has a fixed width, so the key determines both halves whatever the currency text is. */
  lemma KeyIsInjective(p: Pair, q: Pair)
    requires Key(p) == Key(q)
    ensures p.currency == q.currency && p.on.date == q.on.date
  {
    var k := Key(p);
    assert |p.currency| == |k| - 11 == |q.currency|;
    assert p.currency == k[..|k| - 11] == q.currency;
    assert p.on.date == k[|k| - 10..] == q.on.date;
  }

  /** `getEffectiveRate`: the base currency is always 1. */
  function EffectiveRate(rates: RateLookup, p: Pair): (r: Result<real, NoRate>) {
    if p.currency == BASE_CURRENCY then Ok(1.0)
    else
      match rates(p.currency, p.on.date)
      case Some(rate) => Ok(rate)
      case None => Err(NoRate(p.currency, p.on.date))
  }

  lemma SameKeySameRate(rates: RateLookup, p: Pair, q: Pair)
    requires Key(p) == Key(q)
    ensures EffectiveRate(rates, p) == EffectiveRate(rates, q)
  {
    KeyIsInjective(p, q);
  }

  /**
   * `keys` lists the distinct texts of `ks` in the order of their first occurrence: `firstAt[j]` is where `keys[j]`
   * first occurs, `pos[i]` is where `ks[i]` is listed.
   */
  ghost predicate IsIndexOf<K>(ks: seq<K>, keys: seq<K>, firstAt: seq<nat>, pos: seq<nat>) {
    && |keys| == |firstAt| && |pos| == |ks|
    && (forall j {:trigger firstAt[j]} :: 0 <= j < |keys| ==> firstAt[j] < |ks| && ks[firstAt[j]] == keys[j])
    && (forall j, l :: 0 <= j < l < |keys| ==> firstAt[j] < firstAt[l] && keys[j] != keys[l])
    && (forall i {:trigger pos[i]} :: 0 <= i < |ks| ==> pos[i] < |keys| && keys[pos[i]] == ks[i] && firstAt[pos[i]] <= i)
  }

  function KeysOf(pairs: seq<Pair>): (r: seq<string>)
    ensures |r| == |pairs| && forall i :: 0 <= i < |r| ==> r[i] == Key(pairs[i])
  {
    seq(|pairs|, i requires 0 <= i < |pairs| => Key(pairs[i]))
  }

  /** A text that is listed already only gets a position. */
  lemma IndexRepeats<K>(ks: seq<K>, keys: seq<K>, firstAt: seq<nat>, pos: seq<nat>, j: nat)
    requires IsIndexOf(ks, keys, firstAt, pos) && j < |keys|
    ensures IsIndexOf(ks + [keys[j]], keys, firstAt, pos + [j])
  {
    assert firstAt[j] < |ks|;
  }

  /** A new one is listed at the end. */
  lemma IndexGrows<K>(ks: seq<K>, keys: seq<K>, firstAt: seq<nat>, pos: seq<nat>, k: K)
    requires IsIndexOf(ks, keys, firstAt, pos) && k !in keys
    ensures IsIndexOf(ks + [k], keys + [k], firstAt + [|ks|], pos + [|keys|])
  {
    assert forall j :: 0 <= j < |keys| ==> firstAt[j] < |ks|;
  }

  /** Every listed text, and no other, is mapped to the last index at which it occurs. */
  ghost predicate IsLastPlaceOf<K>(ks: seq<K>, keys: seq<K>, at: map<K, nat>) {
    && (forall k :: k in at ==> k in keys)
    && (forall j :: 0 <= j < |keys| ==> keys[j] in at)
    && (forall k {:trigger at[k]} :: k in at ==> IsLastOf(ks, k, at[k]))
  }

  ghost predicate IsLastOf<K>(ks: seq<K>, k: K, i: nat) {
    i < |ks| && ks[i] == k && forall j :: i < j < |ks| ==> ks[j] != k
  }

  lemma PlaceMoves<K>(ks: seq<K>, keys: seq<K>, at: map<K, nat>, k: K)
    requires IsLastPlaceOf(ks, keys, at) && k in keys
    ensures IsLastPlaceOf(ks + [k], keys, at[k := |ks|])
  {
    var at' := at[k := |ks|];
    forall x | x in at' ensures IsLastOf(ks + [k], x, at'[x]) {
      if x != k { assert IsLastOf(ks, x, at[x]); }
    }
  }

  lemma PlaceGrows<K>(ks: seq<K>, keys: seq<K>, at: map<K, nat>, k: K)
    requires IsLastPlaceOf(ks, keys, at)
    ensures IsLastPlaceOf(ks + [k], keys + [k], at[k := |ks|])
  {
    var at' := at[k := |ks|];
    forall x | x in at' ensures IsLastOf(ks + [k], x, at'[x]) {
      if x != k { assert IsLastOf(ks, x, at[x]); }
    }
  }

  /** What is known once the texts have been gone through. */
  datatype Scan<K> = Scan(keys: seq<K>, lastAt: map<K, nat>, firstAt: seq<nat>, pos: seq<nat>)

  ghost function PlaceIn<K>(keys: seq<K>, k: K): (j: nat)
    requires k in keys
    ensures j < |keys| && keys[j] == k
  {
    var j :| 0 <= j < |keys| && keys[j] == k;
    j
  }

  ghost function NextScan<K>(s: Scan<K>, k: K, n: nat): Scan<K> {
    if k in s.keys then Scan(s.keys, s.lastAt[k := n], s.firstAt, s.pos + [PlaceIn(s.keys, k)])
    else Scan(s.keys + [k], s.lastAt[k := n], s.firstAt + [n], s.pos + [|s.keys|])
  }

  ghost function ScanOf<K>(ks: seq<K>): Scan<K> {
    if ks == [] then Scan([], map[], [], []) else NextScan(ScanOf(ks[..|ks| - 1]), ks[|ks| - 1], |ks| - 1)
  }

  lemma {:induction false} ScanHasKeys<K>(ks: seq<K>, k: K)
    ensures k in ScanOf(ks).lastAt <==> k in ScanOf(ks).keys
    decreases |ks|
  {
    if ks != [] {
      ScanHasKeys(ks[..|ks| - 1], k);
    }
  }

  lemma {:induction false} ScanIs<K>(ks: seq<K>)
    ensures IsIndexOf(ks, ScanOf(ks).keys, ScanOf(ks).firstAt, ScanOf(ks).pos)
    ensures IsLastPlaceOf(ks, ScanOf(ks).keys, ScanOf(ks).lastAt)
    decreases |ks|
  {
    if ks != [] {
      var n := |ks| - 1;
      ScanIs(ks[..n]);
      assert ks == ks[..n] + [ks[n]];
      NextScanIs(ks[..n], ScanOf(ks[..n]), ks[n]);
    }
  }

  lemma NextScanIs<K>(ks: seq<K>, s: Scan<K>, k: K)
    requires IsIndexOf(ks, s.keys, s.firstAt, s.pos) && IsLastPlaceOf(ks, s.keys, s.lastAt)
    ensures
      var s' := NextScan(s, k, |ks|);
      IsIndexOf(ks + [k], s'.keys, s'.firstAt, s'.pos) && IsLastPlaceOf(ks + [k], s'.keys, s'.lastAt)
  {
    if k in s.keys {
      IndexRepeats(ks, s.keys, s.firstAt, s.pos, PlaceIn(s.keys, k));
      PlaceMoves(ks, s.keys, s.lastAt, k);
    } else {
      IndexGrows(ks, s.keys, s.firstAt, s.pos, k);
      PlaceGrows(ks, s.keys, s.lastAt, k);
    }
  }

  /**
   * The Map `unique`: it keeps the order in which keys were first set and, per key, the pair set last (given here
   * by its index).
   */
  method UniqueKeys<K(==)>(ks: seq<K>)
    returns (keys: seq<K>, lastAt: map<K, nat>, ghost firstAt: seq<nat>, ghost pos: seq<nat>)
    ensures IsIndexOf(ks, keys, firstAt, pos)
    ensures IsLastPlaceOf(ks, keys, lastAt)
  {
    keys, lastAt := [], map[];
    for n := 0 to |ks|
      invariant keys == ScanOf(ks[..n]).keys && lastAt == ScanOf(ks[..n]).lastAt
    {
      var k := ks[n];
      ScanHasKeys(ks[..n], k);
      assert ks[..n + 1][..n] == ks[..n];
      if k !in lastAt {
        keys := keys + [k];
      }
      lastAt := lastAt[k := n];
    }
    assert ks[..|ks|] == ks;
    firstAt, pos := ScanOf(ks).firstAt, ScanOf(ks).pos;
    ScanIs(ks);
  }

  /** Looking up every pair on its own: the simple form the batched one must agree with. */
  function EachRate(rates: RateLookup, pairs: seq<Pair>): (r: seq<Result<real, NoRate>>)
    ensures |r| == |pairs| && forall i :: 0 <= i < |r| ==> r[i] == EffectiveRate(rates, pairs[i])
  {
    seq(|pairs|, i requires 0 <= i < |pairs| => EffectiveRate(rates, pairs[i]))
  }

  lemma SameKeysSameRates(rates: RateLookup, pairs: seq<Pair>)
    ensures SameKeySameOutcome(EachRate(rates, pairs), KeysOf(pairs))
  {
    var ks := KeysOf(pairs);
    forall i, j | 0 <= i < |pairs| && 0 <= j < |pairs| && ks[i] == ks[j]
      ensures EachRate(rates, pairs)[i] == EachRate(rates, pairs)[j]
    {
      SameKeySameRate(rates, pairs[i], pairs[j]);
    }
  }

  /** Entry `i` is the first one whose own lookup fails, and `e` is that failure. */
  ghost predicate IsFirstFailure(each: seq<Result<real, NoRate>>, i: nat, e: NoRate)
    requires i < |each|
  {
    each[i] == Err(e) && forall j :: 0 <= j < i ==> each[j].Ok?
  }

  /** The rate of one pair, in plain terms: 1 for the base currency, else what the lookup has for its currency and date. */
  predicate RateOfPair(rates: RateLookup, p: Pair, rate: real) {
    if p.currency == "UAH" then rate == 1.0 else rates(p.currency, p.on.date) == Some(rate)
  }

  lemma EffectiveRateIs(rates: RateLookup, p: Pair)
    ensures match EffectiveRate(rates, p)
            case Ok(rate) => RateOfPair(rates, p, rate)
            case Err(e) => p.currency != "UAH" && rates(p.currency, p.on.date) == None && e == NoRate(p.currency, p.on.date)
  {
  }

  /**
   * `getEffectiveRates`: at most one lookup per distinct (currency, date), and none for the base currency, with the
   * outcome of looking up every pair on its own; a failure is the failure of the first pair that has no rate.
   */
  method EffectiveRatesOf(rates: RateLookup, pairs: seq<Pair>)
    returns (r: Result<map<string, real>, NoRate>, lookups: nat)
    ensures lookups <= |set k | k in KeysOf(pairs)|
    ensures r.Ok? ==> forall i :: 0 <= i < |pairs| ==>
      KeysOf(pairs)[i] in r.value && EachRate(rates, pairs)[i] == Ok(r.value[KeysOf(pairs)[i]])
    ensures r.Err? ==> exists i :: 0 <= i < |pairs| && IsFirstFailure(EachRate(rates, pairs), i, r.error)
    ensures r.Ok? ==> forall i :: 0 <= i < |pairs| ==> RateOfPair(rates, pairs[i], r.value[KeysOf(pairs)[i]])
    ensures r.Err? ==> r.error.currency != "UAH" && rates(r.error.currency, r.error.date) == None
    ensures r.Err? ==> exists i :: 0 <= i < |pairs| && pairs[i].currency == r.error.currency && pairs[i].on.date == r.error.date
    ensures (forall i :: 0 <= i < |pairs| ==> pairs[i].currency == "UAH") ==> r.Ok? && lookups == 0
  {
    forall i | 0 <= i < |pairs| ensures EachRate(rates, pairs)[i].Ok? ==> RateOfPair(rates, pairs[i], EachRate(rates, pairs)[i].value) {
      EffectiveRateIs(rates, pairs[i]);
    }
    var ks := KeysOf(pairs);
    var keys, lastAt, firstAt, pos := UniqueKeys(ks);
    ghost var each := EachRate(rates, pairs);
    SameKeysSameRates(rates, pairs);
    KeysAreFew(ks, keys, firstAt, pos);
    var result: map<string, real> := map[];
    lookups := 0;
    for n := 0 to |keys|
      invariant lookups <= n
      invariant (forall i :: 0 <= i < |pairs| ==> pairs[i].currency == "UAH") ==> lookups == 0
      invariant Resolves(each, keys, firstAt, n, result)
    {
      var key := keys[n];
      assert key in lastAt;
      var rate := EffectiveRate(rates, pairs[lastAt[key]]);
      assert rate == each[firstAt[n]] by { SameAtBoth(each, ks, keys, firstAt, pos, lastAt, n); }
      lookups := lookups + if pairs[lastAt[key]].currency == BASE_CURRENCY then 0 else 1;
      if rate.Err? {
        EffectiveRateIs(rates, pairs[lastAt[key]]);
        AllBeforeSucceeded(each, ks, keys, firstAt, pos, n);
        return Err(rate.error), lookups;
      }
      NextResolves(each, ks, keys, firstAt, pos, n, result, rate.value);
      result := result[key := rate.value];
    }
    AllResolve(each, ks, keys, firstAt, pos, result);
    r := Ok(result);
  }

  /** The first n listed keys have the rate of their first occurrence. */
  ghost predicate Resolves<K>(each: seq<Result<real, NoRate>>, keys: seq<K>, firstAt: seq<nat>, n: nat, result: map<K, real>) {
    && n <= |keys| == |firstAt|
    && forall j :: 0 <= j < n ==> firstAt[j] < |each| && keys[j] in result && each[firstAt[j]] == Ok(result[keys[j]])
  }

  ghost predicate SameKeySameOutcome<K>(each: seq<Result<real, NoRate>>, ks: seq<K>) {
    |each| == |ks| && forall i, j :: 0 <= i < |ks| && 0 <= j < |ks| && ks[i] == ks[j] ==> each[i] == each[j]
  }

  /** Looking a key up where it occurred last gives what it would have given where it occurred first. */
  lemma SameAtBoth<K>(each: seq<Result<real, NoRate>>, ks: seq<K>, keys: seq<K>, firstAt: seq<nat>, pos: seq<nat>, lastAt: map<K, nat>, n: nat)
    requires IsIndexOf(ks, keys, firstAt, pos) && IsLastPlaceOf(ks, keys, lastAt) && SameKeySameOutcome(each, ks) && n < |keys|
    ensures keys[n] in lastAt && lastAt[keys[n]] < |each| && firstAt[n] < |each| && each[lastAt[keys[n]]] == each[firstAt[n]]
  {
    assert IsLastOf(ks, keys[n], lastAt[keys[n]]);
    assert ks[firstAt[n]] == keys[n];
  }

  lemma NextResolves<K>(each: seq<Result<real, NoRate>>, ks: seq<K>, keys: seq<K>, firstAt: seq<nat>, pos: seq<nat>, n: nat, result: map<K, real>, rate: real)
    requires IsIndexOf(ks, keys, firstAt, pos) && |each| == |ks| && n < |keys| && Resolves(each, keys, firstAt, n, result)
    requires firstAt[n] < |each| && each[firstAt[n]] == Ok(rate)
    ensures Resolves(each, keys, firstAt, n + 1, result[keys[n] := rate])
  {
  }

  lemma AllResolve<K>(each: seq<Result<real, NoRate>>, ks: seq<K>, keys: seq<K>, firstAt: seq<nat>, pos: seq<nat>, result: map<K, real>)
    requires IsIndexOf(ks, keys, firstAt, pos) && SameKeySameOutcome(each, ks) && Resolves(each, keys, firstAt, |keys|, result)
    ensures forall i :: 0 <= i < |ks| ==> ks[i] in result && each[i] == Ok(result[ks[i]])
  {
    forall i | 0 <= i < |ks| ensures ks[i] in result && each[i] == Ok(result[ks[i]]) {
      var j := pos[i];
      assert keys[j] == ks[i] && ks[firstAt[j]] == keys[j];
    }
  }

  lemma AllBeforeSucceeded<K>(each: seq<Result<real, NoRate>>, ks: seq<K>, keys: seq<K>, firstAt: seq<nat>, pos: seq<nat>, n: nat)
    requires IsIndexOf(ks, keys, firstAt, pos) && n < |keys| && SameKeySameOutcome(each, ks)
    requires each[firstAt[n]].Err?
    requires forall j :: 0 <= j < n ==> each[firstAt[j]].Ok?
    ensures IsFirstFailure(each, firstAt[n], each[firstAt[n]].error)
  {
    forall i | 0 <= i < firstAt[n]
      ensures each[i].Ok?
    {
      var j := pos[i];
      assert firstAt[j] <= i && ks[firstAt[j]] == ks[i];
      assert j < n;
    }
  }

  lemma KeysAreFew<K>(ks: seq<K>, keys: seq<K>, firstAt: seq<nat>, pos: seq<nat>)
    requires IsIndexOf(ks, keys, firstAt, pos)
    ensures |keys| == |set k | k in ks|
  {
    var all := set k | k in ks;
    var listed := set k | k in keys;
    forall k | k in listed ensures k in all {
      var j :| 0 <= j < |keys| && keys[j] == k;
      assert ks[firstAt[j]] == k;
    }
    forall k | k in all ensures k in listed {
      var i :| 0 <= i < |ks| && ks[i] == k;
      assert keys[pos[i]] == k;
    }
    assert listed == all;
    DistinctSeqSize(keys);
  }

  lemma {:induction false} DistinctSeqSize<T>(s: seq<T>)
    requires forall i, j :: 0 <= i < j < |s| ==> s[i] != s[j]
    ensures |set x | x in s| == |s|
  {
    if s != [] {
      var front := s[..|s| - 1];
      DistinctSeqSize(front);
      var last := s[|s| - 1];
      assert last !in front;
      assert (set x | x in s) == (set x | x in front) + {last};
    }
  }
}

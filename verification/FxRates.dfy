/**
 * The exchange-rate lookup "latest rate on or before a date": the SQL form over the `fx_rate` table, the in-process
 * index with its binary search, and the condition under which the two agree.
 */
module FxRates {
  import opened Wrappers
  import opened Domain
  import opened TextOrder

  /** Primary key of `fx_rate`. */
  datatype Key = Key(currency: string, date: DateText, source: string)

  type Table = map<Key, real>

  /** A rate as a lookup returns it. */
  datatype Rate = Rate(date: DateText, rate: real, source: string)

  // ----- the SQL lookup -----

  predicate Candidate(k: Key, currency: string, on: DateText) {
    k.currency == currency && Le(k.date, on)
  }

  /** ORDER BY rate_date DESC, source ASC. */
  predicate Before(a: Key, b: Key) {
    Lt(b.date, a.date) || (a.date == b.date && Le(a.source, b.source))
  }

  ghost predicate IsLatest(t: Table, currency: string, on: DateText, k: Key) {
    && k in t && Candidate(k, currency, on)
    && forall j :: j in t && Candidate(j, currency, on) ==> Before(k, j)
  }

  lemma BeforeIsTotal(a: Key, b: Key)
    ensures Before(a, b) || Before(b, a)
  {
    Total(a.date, b.date);
    Total(a.source, b.source);
  }

  lemma BeforeIsTransitive(a: Key, b: Key, c: Key)
    requires Before(a, b) && Before(b, c)
    ensures Before(a, c)
  {
    if Lt(b.date, a.date) && Lt(c.date, b.date) {
      LtLe(c.date, b.date, a.date);
    } else if a.date == b.date && b.date == c.date {
      Transitive(a.source, b.source, c.source);
    }
  }

  lemma LatestIsUnique(t: Table, currency: string, on: DateText, k: Key, l: Key)
    requires IsLatest(t, currency, on, k) && IsLatest(t, currency, on, l)
    ensures k == l
  {
    assert Before(k, l) && Before(l, k);
    if Lt(l.date, k.date) && Lt(k.date, l.date) {
      Antisymmetric(k.date, l.date);
    }
    Antisymmetric(k.source, l.source);
  }

  lemma {:induction false} SomeIsFirst(ks: set<Key>)
    requires ks != {}
    ensures exists k :: k in ks && forall j :: j in ks ==> Before(k, j)
    decreases ks
  {
    var x :| x in ks;
    var rest := ks - {x};
    Reflexive(x.source);
    if rest == {} {
      assert forall j :: j in ks && j != x ==> j in rest;
      assert Before(x, x);
    } else {
      SomeIsFirst(rest);
      var y :| y in rest && forall j :: j in rest ==> Before(y, j);
      BeforeIsTotal(x, y);
      var k := if Before(x, y) then x else y;
      forall j | j in ks ensures Before(k, j) {
        if j != x && k == x { BeforeIsTransitive(x, y, j); }
      }
    }
  }

  function Candidates(t: Table, currency: string, on: DateText): set<Key> {
    set k | k in t && Candidate(k, currency, on)
  }

  lemma LatestExists(t: Table, currency: string, on: DateText)
    requires Candidates(t, currency, on) != {}
    ensures exists k :: IsLatest(t, currency, on, k)
  {
    SomeIsFirst(Candidates(t, currency, on));
    var k :| k in Candidates(t, currency, on) && forall j :: j in Candidates(t, currency, on) ==> Before(k, j);
    assert IsLatest(t, currency, on, k);
  }

  /** `FxRateRepository.findLatest`. */
  ghost function SqlLatest(t: Table, currency: string, on: DateText): (r: Option<Rate>)
    ensures r == None <==> Candidates(t, currency, on) == {}
    ensures r.Some? ==> exists k :: IsLatest(t, currency, on, k) && r.value == Rate(k.date, t[k], k.source)
  {
    if Candidates(t, currency, on) == {} then None
    else
      LatestExists(t, currency, on);
      var k :| IsLatest(t, currency, on, k);
      Some(Rate(k.date, t[k], k.source))
  }

  /**
   * The lookup, in the terms of its query: the row of the currency dated on or before the day such that no other is
   * later, or of the same date with a smaller source. There is an answer as soon as one row qualifies.
   */
  lemma SqlLatestIs(t: Table, currency: string, on: DateText, k: Key)
    requires k in t && k.currency == currency && Le(k.date, on)
    requires forall j :: j in t && j.currency == currency && Le(j.date, on) && j != k ==>
      Le(j.date, k.date) && (j.date == k.date ==> Le(k.source, j.source))
    ensures SqlLatest(t, currency, on) == Some(Rate(k.date, t[k], k.source))
  {
    Reflexive(k.source);
    assert IsLatest(t, currency, on, k);
    LatestIs(t, currency, on, k);
  }

  lemma NoRowNoAnswer(t: Table, currency: string, on: DateText)
    ensures SqlLatest(t, currency, on).None? <==> forall j :: j in t && j.currency == currency ==> !Le(j.date, on)
  {
    assert forall j :: j in Candidates(t, currency, on) <==> j in t && j.currency == currency && Le(j.date, on);
  }

  lemma LatestIs(t: Table, currency: string, on: DateText, k: Key)
    requires IsLatest(t, currency, on, k)
    ensures SqlLatest(t, currency, on) == Some(Rate(k.date, t[k], k.source))
  {
    assert k in Candidates(t, currency, on);
    var l :| IsLatest(t, currency, on, l) && SqlLatest(t, currency, on).value == Rate(l.date, t[l], l.source);
    LatestIsUnique(t, currency, on, k, l);
  }

  // ----- the rows the index is loaded from -----

  datatype EffectiveRow = EffectiveRow(currency: string, rate: Rate)

  function KeyOf(r: EffectiveRow): Key { Key(r.currency, r.rate.date, r.rate.source) }

  /** The row `DISTINCT ON (currency, rate_date) ... ORDER BY source` keeps for its date. */
  ghost predicate Effective(t: Table, k: Key) {
    k in t && forall j :: j in t && j.currency == k.currency && j.date == k.date ==> Le(k.source, j.source)
  }

  /** `findAllEffective`: one row per (currency, date), dates ascending within a currency. */
  ghost predicate AreEffectiveRows(rows: seq<EffectiveRow>, t: Table) {
    && (forall i :: 0 <= i < |rows| ==> Effective(t, KeyOf(rows[i])) && rows[i].rate.rate == t[KeyOf(rows[i])])
    && (forall k :: Effective(t, k) ==> exists i :: 0 <= i < |rows| && KeyOf(rows[i]) == k)
    && (forall i, j :: 0 <= i < j < |rows| && rows[i].currency == rows[j].currency ==> Lt(rows[i].rate.date, rows[j].rate.date))
  }

  function SeriesOf(rows: seq<EffectiveRow>, currency: string): seq<Rate> {
    if rows == [] then []
    else
      var last := rows[|rows| - 1];
      SeriesOf(rows[..|rows| - 1], currency) + if last.currency == currency then [last.rate] else []
  }

  ghost predicate Ascending(series: seq<Rate>) {
    forall i, j :: 0 <= i < j < |series| ==> Lt(series[i].date, series[j].date)
  }

  /** The series of a currency holds exactly its rows, in date order. */
  lemma {:induction false} SeriesIs(rows: seq<EffectiveRow>, currency: string)
    requires forall i, j :: 0 <= i < j < |rows| && rows[i].currency == rows[j].currency ==> Lt(rows[i].rate.date, rows[j].rate.date)
    ensures Ascending(SeriesOf(rows, currency))
    ensures forall r :: r in SeriesOf(rows, currency) <==> EffectiveRow(currency, r) in rows
  {
    if rows != [] {
      var front, last := rows[..|rows| - 1], rows[|rows| - 1];
      SeriesIs(front, currency);
      assert forall x :: x in rows <==> x in front || x == last;
      var series := SeriesOf(front, currency);
      if last.currency == currency {
        forall i | 0 <= i < |series| ensures Lt(series[i].date, last.rate.date) {
          assert series[i] in series;
          var n :| 0 <= n < |front| && front[n] == EffectiveRow(currency, series[i]);
          assert rows[n] == front[n];
        }
      }
    }
  }

  // ----- the index -----

  /** `FxRateCache`. */
  class FxRateCache {
    var series: map<string, seq<Rate>>

    constructor ()
      ensures series == map[]
    {
      series := map[];
    }

    /** `load`: group by currency, then swap the whole index. */
    method Load(rows: seq<EffectiveRow>)
      modifies this
      ensures forall c :: c in series <==> SeriesOf(rows, c) != []
      ensures forall c :: c in series ==> series[c] == SeriesOf(rows, c)
    {
      var next: map<string, seq<Rate>> := map[];
      for n := 0 to |rows|
        invariant forall c :: c in next <==> SeriesOf(rows[..n], c) != []
        invariant forall c :: c in next ==> next[c] == SeriesOf(rows[..n], c)
      {
        assert rows[..n + 1][..n] == rows[..n];
        var r := rows[n];
        var soFar := if r.currency in next then next[r.currency] else [];
        next := next[r.currency := soFar + [r.rate]];
      }
      assert rows[..|rows|] == rows;
      series := next;
    }

    /** `findLatest`: the rightmost entry on or before the date, unless the date is past the end of the series. */
    method FindLatest(currency: string, on: DateText) returns (r: Option<Rate>)
      requires currency in series ==> Ascending(series[currency])
      ensures r == CacheLatest(series, currency, on)
    {
      if currency !in series || |series[currency]| == 0 {
        return None;
      }
      var s := series[currency];
      if !Le(on, s[|s| - 1].date) {
        return None;
      }
      var lo, hi, found := 0, |s| - 1, -1;
      while lo <= hi
        invariant 0 <= lo <= hi + 1 <= |s|
        invariant found == lo - 1
        invariant forall i :: 0 <= i < lo ==> Le(s[i].date, on)
        invariant forall i :: hi < i < |s| ==> !Le(s[i].date, on)
      {
        var mid := (lo + hi) / 2;
        SearchStep(s, mid, on);
        if Le(s[mid].date, on) {
          found := mid;
          lo := mid + 1;
        } else {
          hi := mid - 1;
        }
      }
      CountIs(s, on, lo);
      r := if found == -1 then None else Some(s[found]);
    }
  }

  lemma SearchStep(s: seq<Rate>, mid: nat, on: DateText)
    requires Ascending(s) && mid < |s|
    ensures Le(s[mid].date, on) ==> forall i :: 0 <= i <= mid ==> Le(s[i].date, on)
    ensures !Le(s[mid].date, on) ==> forall i :: mid <= i < |s| ==> !Le(s[i].date, on)
  {
    if Le(s[mid].date, on) {
      forall i | 0 <= i < mid ensures Le(s[i].date, on) { Transitive(s[i].date, s[mid].date, on); }
    } else {
      forall i | mid < i < |s| ensures !Le(s[i].date, on) {
        if Le(s[i].date, on) { Transitive(s[mid].date, s[i].date, on); }
      }
    }
  }

  /** How many entries are dated on or before `on`. */
  function CountUpTo(s: seq<Rate>, on: DateText): (n: nat)
    ensures n <= |s|
  {
    if s == [] then 0 else CountUpTo(s[..|s| - 1], on) + if Le(s[|s| - 1].date, on) then 1 else 0
  }

  lemma {:induction false} CountIs(s: seq<Rate>, on: DateText, n: nat)
    requires n <= |s|
    requires forall i :: 0 <= i < n ==> Le(s[i].date, on)
    requires forall i :: n <= i < |s| ==> !Le(s[i].date, on)
    ensures CountUpTo(s, on) == n
  {
    if s != [] {
      CountIs(s[..|s| - 1], on, if n == |s| then n - 1 else n);
    }
  }

  /** What the index answers; None means "ask the database". */
  function CacheLatest(series: map<string, seq<Rate>>, currency: string, on: DateText): Option<Rate> {
    if currency !in series || series[currency] == [] then None
    else
      var s := series[currency];
      var n := CountUpTo(s, on);
      if !Le(on, s[|s| - 1].date) || n == 0 then None else Some(s[n - 1])
  }

  // ----- agreement -----

  /** `FxRatesService.findLatest`: the index first, the database for what it does not answer. */
  ghost function Lookup(series: map<string, seq<Rate>>, t: Table, currency: string, on: DateText): Option<Rate> {
    var cached := CacheLatest(series, currency, on);
    if cached.Some? then cached else SqlLatest(t, currency, on)
  }

  ghost predicate LoadedFrom(series: map<string, seq<Rate>>, t0: Table, rows: seq<EffectiveRow>) {
    && AreEffectiveRows(rows, t0)
    && (forall c :: c in series <==> SeriesOf(rows, c) != [])
    && (forall c :: c in series ==> series[c] == SeriesOf(rows, c))
  }

  /** History is write-once: rows are only ever added. */
  ghost predicate WriteOnce(t0: Table, t: Table) {
    forall k :: k in t0 ==> k in t && t[k] == t0[k]
  }

  /** Every row of the loaded table competes with a loaded row of its own date. */
  lemma {:induction false} EffectiveExists(t: Table, k: Key)
    requires k in t
    ensures exists e :: Effective(t, e) && e.currency == k.currency && e.date == k.date && Le(e.source, k.source)
  {
    var same := set j | j in t && j.currency == k.currency && j.date == k.date;
    assert k in same;
    SomeIsFirst(same);
    var e :| e in same && forall j :: j in same ==> Before(e, j);
    forall j | j in same ensures Le(e.source, j.source) {
      assert Before(e, j);
    }
    assert Effective(t, e);
  }

  /** The series entry an effective row is loaded into. */
  lemma EffectiveIsLoaded(series: map<string, seq<Rate>>, t0: Table, rows: seq<EffectiveRow>, e: Key)
    requires LoadedFrom(series, t0, rows) && Effective(t0, e)
    ensures e.currency in series && Rate(e.date, t0[e], e.source) in series[e.currency]
  {
    SeriesIs(rows, e.currency);
    var i :| 0 <= i < |rows| && KeyOf(rows[i]) == e;
    assert rows[i] == EffectiveRow(e.currency, Rate(e.date, t0[e], e.source));
  }

  lemma LoadedIsEffective(series: map<string, seq<Rate>>, t0: Table, rows: seq<EffectiveRow>, c: string, i: nat)
    requires LoadedFrom(series, t0, rows) && c in series && i < |series[c]|
    ensures Ascending(series[c])
    ensures
      var r := series[c][i];
      Effective(t0, Key(c, r.date, r.source)) && r.rate == t0[Key(c, r.date, r.source)]
  {
    SeriesIs(rows, c);
    assert series[c][i] in SeriesOf(rows, c);
  }

  /** The split of an ascending series at a date. */
  lemma {:induction false} CountSplits(s: seq<Rate>, on: DateText)
    requires Ascending(s)
    ensures forall i :: 0 <= i < CountUpTo(s, on) ==> Le(s[i].date, on)
    ensures forall i :: CountUpTo(s, on) <= i < |s| ==> !Le(s[i].date, on)
  {
    if s != [] {
      var front := s[..|s| - 1];
      CountSplits(front, on);
      if Le(s[|s| - 1].date, on) {
        SearchStep(s, |s| - 1, on);
        CountIs(front, on, |front|);
      }
    }
  }

  /** An answer of the index is the SQL answer over the table it was loaded from. */
  lemma CacheAnswersForTheLoadedTable(series: map<string, seq<Rate>>, t0: Table, rows: seq<EffectiveRow>, c: string, on: DateText)
    requires LoadedFrom(series, t0, rows) && CacheLatest(series, c, on).Some?
    ensures
      var r := CacheLatest(series, c, on).value;
      && c in series && Ascending(series[c]) && r in series[c]
      && IsLatest(t0, c, on, Key(c, r.date, r.source)) && r.rate == t0[Key(c, r.date, r.source)]
  {
    var s := series[c];
    LoadedIsEffective(series, t0, rows, c, 0);
    CountSplits(s, on);
    var n := CountUpTo(s, on);
    var r := s[n - 1];
    LoadedIsEffective(series, t0, rows, c, n - 1);
    var k := Key(c, r.date, r.source);
    forall j | j in t0 && Candidate(j, c, on) ensures Before(k, j) {
      EffectiveExists(t0, j);
      var e :| Effective(t0, e) && e.currency == j.currency && e.date == j.date && Le(e.source, j.source);
      EffectiveIsLoaded(series, t0, rows, e);
      var i :| 0 <= i < |s| && s[i] == Rate(e.date, t0[e], e.source);
      assert i < n;
      if i == n - 1 {
        assert k.date == j.date && k.source == e.source;
      }
    }
  }

  /** A row added after the load that no lookup through the index can miss. */
  ghost predicate HarmlessRow(series: map<string, seq<Rate>>, t0: Table, k: Key) {
    k.currency in series && series[k.currency] != [] ==>
      var s := series[k.currency];
      || Lt(s[|s| - 1].date, k.date)
      || Lt(k.date, s[0].date)
      || exists j :: j in t0 && j.currency == k.currency && j.date == k.date && Lt(j.source, k.source)
  }

  /** Every added row is dated past the end of its series, before its start, or loses the tie of its date. */
  ghost predicate Harmless(series: map<string, seq<Rate>>, t0: Table, t: Table) {
    forall k :: k in t && k !in t0 ==> HarmlessRow(series, t0, k)
  }

  ghost predicate Agrees(series: map<string, seq<Rate>>, t: Table) {
    forall c: string, on: DateText :: Lookup(series, t, c, on) == SqlLatest(t, c, on)
  }

  /** Losing a tie to a row that comes after k is coming after k. */
  lemma TieIsLost(k: Key, l: Key, j: Key)
    requires Before(k, l) && l.date == j.date && Lt(l.source, j.source)
    ensures Before(k, j)
  {
    if k.date == l.date {
      Transitive(k.source, l.source, j.source);
    }
  }

  lemma NotPastTheEnd(s: seq<Rate>, on: DateText, j: Key)
    requires s != [] && Le(on, s[|s| - 1].date) && Le(j.date, on)
    ensures !Lt(s[|s| - 1].date, j.date)
  {
    Transitive(j.date, on, s[|s| - 1].date);
    NotLe(j.date, s[|s| - 1].date);
  }

  lemma BeforeTheStart(s: seq<Rate>, i: nat, c: string, j: Key)
    requires Ascending(s) && i < |s| && Lt(j.date, s[0].date)
    ensures Before(Key(c, s[i].date, s[i].source), j)
  {
    Reflexive(s[i].date);
    LtLe(j.date, s[0].date, s[i].date);
  }

  lemma HarmlessRowsKeepTheAnswer(series: map<string, seq<Rate>>, t0: Table, t: Table, rows: seq<EffectiveRow>, c: string, on: DateText, j: Key)
    requires LoadedFrom(series, t0, rows) && CacheLatest(series, c, on).Some?
    requires j in t && j !in t0 && Candidate(j, c, on) && HarmlessRow(series, t0, j)
    ensures var r := CacheLatest(series, c, on).value; Before(Key(c, r.date, r.source), j)
  {
    CacheAnswersForTheLoadedTable(series, t0, rows, c, on);
    var r, s := CacheLatest(series, c, on).value, series[c];
    var i :| 0 <= i < |s| && s[i] == r;
    NotPastTheEnd(s, on, j);
    if Lt(j.date, s[0].date) {
      BeforeTheStart(s, i, c, j);
    } else {
      var l :| l in t0 && l.currency == j.currency && l.date == j.date && Lt(l.source, j.source);
      TieIsLost(Key(c, r.date, r.source), l, j);
    }
  }

  lemma HarmlessWritesAgree(series: map<string, seq<Rate>>, t0: Table, t: Table, rows: seq<EffectiveRow>, c: string, on: DateText)
    requires LoadedFrom(series, t0, rows) && WriteOnce(t0, t) && Harmless(series, t0, t)
    ensures Lookup(series, t, c, on) == SqlLatest(t, c, on)
  {
    if CacheLatest(series, c, on).Some? {
      CacheAnswersForTheLoadedTable(series, t0, rows, c, on);
      var r := CacheLatest(series, c, on).value;
      var k := Key(c, r.date, r.source);
      forall j | j in t && Candidate(j, c, on) ensures Before(k, j) {
        if j !in t0 {
          HarmlessRowsKeepTheAnswer(series, t0, t, rows, c, on, j);
        }
      }
      assert IsLatest(t, c, on, k);
      LatestIs(t, c, on, k);
    }
  }

  /** A row that is not harmless changes the SQL answer for its own date, but not the answer of the index. */
  lemma HarmfulRowDisagrees(series: map<string, seq<Rate>>, t0: Table, t: Table, rows: seq<EffectiveRow>, k: Key)
    requires LoadedFrom(series, t0, rows) && WriteOnce(t0, t)
    requires k in t && k !in t0 && !HarmlessRow(series, t0, k)
    ensures Lookup(series, t, k.currency, k.date) != SqlLatest(t, k.currency, k.date)
  {
    var c, on, s := k.currency, k.date, series[k.currency];
    LoadedIsEffective(series, t0, rows, c, 0);
    NotLe(on, s[|s| - 1].date);
    NotLe(s[0].date, on);
    CountSplits(s, on);
    assert CountUpTo(s, on) > 0;
    CacheAnswersForTheLoadedTable(series, t0, rows, c, on);
    var r := CacheLatest(series, c, on).value;
    Reflexive(on);
    assert k in Candidates(t, c, on);
    LatestExists(t, c, on);
    var l :| IsLatest(t, c, on, l);
    LatestIs(t, c, on, l);
    assert Before(l, k);
    if Lt(k.date, l.date) { Antisymmetric(k.date, l.date); }
    var j := Key(c, r.date, r.source);
    assert j in t0 && (j == l ==> j.date == k.date && Le(j.source, k.source));
  }

  /**
   * Exactly when the index may be trusted: as long as history is write-once, index-then-database gives the row of the
   * plain SQL lookup for every currency and every date if and only if every row added since the load is dated after
   * its currency's last cached date, before its first, or loses the source tie of a date already cached.
   */
  lemma CacheAgreesExactlyWhen(series: map<string, seq<Rate>>, t0: Table, t: Table, rows: seq<EffectiveRow>)
    requires LoadedFrom(series, t0, rows) && WriteOnce(t0, t)
    ensures Agrees(series, t) <==> Harmless(series, t0, t)
  {
    if Harmless(series, t0, t) {
      forall c: string, on: DateText ensures Lookup(series, t, c, on) == SqlLatest(t, c, on) {
        HarmlessWritesAgree(series, t0, t, rows, c, on);
      }
    } else {
      var k :| k in t && k !in t0 && !HarmlessRow(series, t0, k);
      HarmfulRowDisagrees(series, t0, t, rows, k);
    }
  }
}

/**
 * The rate index against any later table: rows added, corrected or deleted since the load. What has to hold of the table
 * for index-then-database to be the plain SQL lookup, exactly.
 */
module FxAgreement {
  import opened Wrappers
  import opened Domain
  import opened TextOrder
  import opened FxRates

  ghost predicate Sorted(series: map<string, seq<Rate>>) { forall c :: c in series ==> Ascending(series[c]) }

  function EntryKey(c: string, r: Rate): Key { Key(c, r.date, r.source) }

  /** The row of a cached entry is still there, unchanged, and still wins the tie of its date. */
  ghost predicate StillEffective(t: Table, c: string, r: Rate) {
    Effective(t, EntryKey(c, r)) && t[EntryKey(c, r)] == r.rate
  }

  /** The date lies within the cached range. */
  predicate Within(s: seq<Rate>, d: DateText) { s != [] && Le(s[0].date, d) && Le(d, s[|s| - 1].date) }

  ghost predicate DateCached(s: seq<Rate>, d: DateText) { exists i :: 0 <= i < |s| && s[i].date == d }

  /** Every entry of the series is still effective, and the table has no other date within its range. */
  ghost predicate IntactSeries(t: Table, c: string, s: seq<Rate>) {
    && (forall i: nat :: i < |s| ==> StillEffective(t, c, s[i]))
    && (forall k :: k in t && k.currency == c && Within(s, k.date) ==> DateCached(s, k.date))
  }

  ghost predicate Intact(series: map<string, seq<Rate>>, t: Table) {
    forall c :: c in series ==> IntactSeries(t, c, series[c])
  }

  lemma FirstIsEarliest(s: seq<Rate>, i: nat)
    requires Ascending(s) && i < |s|
    ensures Le(s[0].date, s[i].date) && Le(s[i].date, s[|s| - 1].date)
  {
    Reflexive(s[i].date);
  }

  /** On an entry's own date the index answers with that entry. */
  lemma AnswersOnItsDate(series: map<string, seq<Rate>>, c: string, i: nat)
    requires Sorted(series) && c in series && i < |series[c]|
    ensures CacheLatest(series, c, series[c][i].date) == Some(series[c][i])
  {
    var s := series[c];
    var on := s[i].date;
    Reflexive(on);
    SearchStep(s, i, on);
    forall j | i < j < |s| ensures !Le(s[j].date, on) { NotLe(s[j].date, on); }
    CountIs(s, on, i + 1);
    FirstIsEarliest(s, i);
  }

  lemma AnswersWithin(series: map<string, seq<Rate>>, c: string, on: DateText)
    requires Sorted(series) && c in series && Within(series[c], on)
    ensures CacheLatest(series, c, on).Some? && DateCached(series[c], CacheLatest(series, c, on).value.date)
  {
    CountSplits(series[c], on);
  }

  lemma SqlIsLatest(t: Table, c: string, on: DateText, r: Rate)
    requires SqlLatest(t, c, on) == Some(r)
    ensures IsLatest(t, c, on, EntryKey(c, r)) && t[EntryKey(c, r)] == r.rate
  {
    var k :| IsLatest(t, c, on, k) && r == Rate(k.date, t[k], k.source);
    assert k == EntryKey(c, r);
  }

  lemma AgreementKeepsEntries(series: map<string, seq<Rate>>, t: Table, c: string, i: nat)
    requires Sorted(series) && Agrees(series, t) && c in series && i < |series[c]|
    ensures StillEffective(t, c, series[c][i])
  {
    var r := series[c][i];
    AnswersOnItsDate(series, c, i);
    assert Lookup(series, t, c, r.date) == SqlLatest(t, c, r.date);
    SqlIsLatest(t, c, r.date, r);
    Reflexive(r.date);
    var k := EntryKey(c, r);
    forall j | j in t && j.currency == k.currency && j.date == k.date ensures Le(k.source, j.source) {
      assert Candidate(j, c, r.date) && Before(k, j);
    }
  }

  lemma AgreementKeepsDates(series: map<string, seq<Rate>>, t: Table, k: Key)
    requires Sorted(series) && Agrees(series, t)
    requires k in t && k.currency in series && Within(series[k.currency], k.date)
    ensures DateCached(series[k.currency], k.date)
  {
    var c, on := k.currency, k.date;
    AnswersWithin(series, c, on);
    var r := CacheLatest(series, c, on).value;
    assert Lookup(series, t, c, on) == SqlLatest(t, c, on);
    SqlIsLatest(t, c, on, r);
    Reflexive(on);
    assert Before(EntryKey(c, r), k);
    if Lt(k.date, r.date) { Antisymmetric(k.date, r.date); }
  }

  /** Any row of the table up to the date comes after the entry the index answers with. */
  lemma AnswerComesFirst(t: Table, c: string, s: seq<Rate>, on: DateText, n: nat, j: Key)
    requires Ascending(s) && IntactSeries(t, c, s) && 0 < n <= |s| && n == CountUpTo(s, on)
    requires Le(on, s[|s| - 1].date) && j in t && Candidate(j, c, on)
    ensures Before(EntryKey(c, s[n - 1]), j)
  {
    NotLe(s[0].date, j.date);
    if Lt(j.date, s[0].date) {
      FirstIsEarliest(s, n - 1);
      LtLe(j.date, s[0].date, s[n - 1].date);
    } else {
      Transitive(j.date, on, s[|s| - 1].date);
      assert Within(s, j.date);
      var i: nat :| i < |s| && s[i].date == j.date;
      CountSplits(s, on);
      LaterEntryComesFirst(t, c, s, i, n - 1, j);
    }
  }

  lemma LaterEntryComesFirst(t: Table, c: string, s: seq<Rate>, i: nat, l: nat, j: Key)
    requires Ascending(s) && i <= l < |s| && s[i].date == j.date && j in t && j.currency == c && StillEffective(t, c, s[l])
    ensures Before(EntryKey(c, s[l]), j)
  {
  }

  lemma IntactAgrees(series: map<string, seq<Rate>>, t: Table, c: string, on: DateText)
    requires Sorted(series) && Intact(series, t)
    ensures Lookup(series, t, c, on) == SqlLatest(t, c, on)
  {
    if CacheLatest(series, c, on).Some? {
      var s := series[c];
      var n := CountUpTo(s, on);
      var r := s[n - 1];
      CountSplits(s, on);
      assert StillEffective(t, c, s[n - 1]);
      var k := EntryKey(c, r);
      forall j | j in t && Candidate(j, c, on) ensures Before(k, j) { AnswerComesFirst(t, c, s, on, n, j); }
      LatestIs(t, c, on, k);
    }
  }

  /**
   * For every table whatsoever: index-then-database is the plain SQL lookup for every currency and date if and only if
   * every cached entry is still the unchanged effective row of its date and no other date has appeared within a cached range.
   */
  lemma AgreesWithAnyTableExactlyWhen(series: map<string, seq<Rate>>, t: Table)
    requires Sorted(series)
    ensures Agrees(series, t) <==> Intact(series, t)
  {
    if Intact(series, t) {
      forall c: string, on: DateText ensures Lookup(series, t, c, on) == SqlLatest(t, c, on) { IntactAgrees(series, t, c, on); }
    }
    if Agrees(series, t) {
      forall c | c in series ensures IntactSeries(t, c, series[c]) {
        forall i: nat | i < |series[c]| ensures StillEffective(t, c, series[c][i]) { AgreementKeepsEntries(series, t, c, i); }
        forall k | k in t && k.currency == c && Within(series[c], k.date) ensures DateCached(series[c], k.date) {
          AgreementKeepsDates(series, t, k);
        }
      }
    }
  }

  // ----- rows added and corrected since the load -----

  /** No row that was effective at the load has another rate now. */
  ghost predicate NothingCachedCorrected(t0: Table, t: Table)
    requires t0.Keys <= t.Keys
  {
    forall k :: Effective(t0, k) ==> t[k] == t0[k]
  }

  lemma LoadedIsSorted(series: map<string, seq<Rate>>, t0: Table, rows: seq<EffectiveRow>)
    requires LoadedFrom(series, t0, rows)
    ensures Sorted(series)
  {
    forall c | c in series ensures Ascending(series[c]) { SeriesIs(rows, c); }
  }

  lemma LoadedDateIsCached(series: map<string, seq<Rate>>, t0: Table, rows: seq<EffectiveRow>, k: Key)
    requires LoadedFrom(series, t0, rows) && k in t0
    ensures k.currency in series && DateCached(series[k.currency], k.date)
  {
    EffectiveExists(t0, k);
    var e :| Effective(t0, e) && e.currency == k.currency && e.date == k.date && Le(e.source, k.source);
    EffectiveIsLoaded(series, t0, rows, e);
  }

  /** An added row within a cached range that is harmless shares its date with a loaded one and loses the tie. */
  lemma HarmlessWithinLosesATie(series: map<string, seq<Rate>>, t0: Table, k: Key) returns (j: Key)
    requires k.currency in series && Within(series[k.currency], k.date) && HarmlessRow(series, t0, k)
    ensures j in t0 && j.currency == k.currency && j.date == k.date && Lt(j.source, k.source)
  {
    var s := series[k.currency];
    NotLe(s[0].date, k.date);
    NotLe(k.date, s[|s| - 1].date);
    j :| j in t0 && j.currency == k.currency && j.date == k.date && Lt(j.source, k.source);
  }

  lemma HarmlessKeepsEntry(series: map<string, seq<Rate>>, t0: Table, t: Table, rows: seq<EffectiveRow>, c: string, i: nat)
    requires LoadedFrom(series, t0, rows) && t0.Keys <= t.Keys && Harmless(series, t0, t) && NothingCachedCorrected(t0, t)
    requires c in series && i < |series[c]|
    ensures StillEffective(t, c, series[c][i])
  {
    LoadedIsEffective(series, t0, rows, c, i);
    var k := EntryKey(c, series[c][i]);
    forall j | j in t && j.currency == c && j.date == k.date ensures Le(k.source, j.source) {
      if j !in t0 {
        FirstIsEarliest(series[c], i);
        var l := HarmlessWithinLosesATie(series, t0, j);
        Transitive(k.source, l.source, j.source);
      }
    }
  }

  lemma IntactIsHarmless(series: map<string, seq<Rate>>, t0: Table, t: Table, rows: seq<EffectiveRow>, k: Key)
    requires LoadedFrom(series, t0, rows) && Intact(series, t) && k in t && k !in t0
    ensures HarmlessRow(series, t0, k)
  {
    if k.currency in series && Within(series[k.currency], k.date) {
      var s := series[k.currency];
      assert IntactSeries(t, k.currency, s);
      var i: nat :| i < |s| && s[i].date == k.date;
      LoadedIsEffective(series, t0, rows, k.currency, i);
      LosesToEntry(t0, t, k, s[i]);
    } else {
      OutsideIsHarmless(series, t0, k);
    }
  }

  lemma LosesToEntry(t0: Table, t: Table, k: Key, r: Rate)
    requires k in t && k !in t0 && r.date == k.date && EntryKey(k.currency, r) in t0 && StillEffective(t, k.currency, r)
    ensures exists j :: j in t0 && j.currency == k.currency && j.date == k.date && Lt(j.source, k.source)
  {
    var j := EntryKey(k.currency, r);
    assert j in t0 && Lt(j.source, k.source);
  }

  lemma OutsideIsHarmless(series: map<string, seq<Rate>>, t0: Table, k: Key)
    requires k.currency in series ==> !Within(series[k.currency], k.date)
    ensures HarmlessRow(series, t0, k)
  {
    if k.currency in series && series[k.currency] != [] {
      var s := series[k.currency];
      NotLe(s[0].date, k.date);
      NotLe(k.date, s[|s| - 1].date);
    }
  }

  /**
   * With rows added and corrected since the load (a re-fetched day is corrected in place), and none deleted: the two agree
   * everywhere if and only if every added row is harmless and no effective row of a cached date was corrected.
   */
  lemma AgreesAfterCorrectionsExactlyWhen(series: map<string, seq<Rate>>, t0: Table, t: Table, rows: seq<EffectiveRow>)
    requires LoadedFrom(series, t0, rows) && t0.Keys <= t.Keys
    ensures Agrees(series, t) <==> Harmless(series, t0, t) && NothingCachedCorrected(t0, t)
  {
    LoadedIsSorted(series, t0, rows);
    AgreesWithAnyTableExactlyWhen(series, t);
    if Intact(series, t) {
      forall k | k in t && k !in t0 ensures HarmlessRow(series, t0, k) { IntactIsHarmless(series, t0, t, rows, k); }
      forall k | Effective(t0, k) ensures t[k] == t0[k] { IntactKeepsRate(series, t0, t, rows, k); }
    }
    if Harmless(series, t0, t) && NothingCachedCorrected(t0, t) {
      forall c | c in series ensures IntactSeries(t, c, series[c]) { HarmlessIsIntact(series, t0, t, rows, c); }
    }
  }

  lemma HarmlessIsIntact(series: map<string, seq<Rate>>, t0: Table, t: Table, rows: seq<EffectiveRow>, c: string)
    requires LoadedFrom(series, t0, rows) && t0.Keys <= t.Keys && Harmless(series, t0, t) && NothingCachedCorrected(t0, t)
    requires c in series
    ensures IntactSeries(t, c, series[c])
  {
    forall i: nat | i < |series[c]| ensures StillEffective(t, c, series[c][i]) {
      HarmlessKeepsEntry(series, t0, t, rows, c, i);
    }
    forall k | k in t && k.currency == c && Within(series[c], k.date) ensures DateCached(series[c], k.date) {
      var l := k;
      if k !in t0 { l := HarmlessWithinLosesATie(series, t0, k); }
      LoadedDateIsCached(series, t0, rows, l);
    }
  }

  lemma IntactKeepsRate(series: map<string, seq<Rate>>, t0: Table, t: Table, rows: seq<EffectiveRow>, k: Key)
    requires LoadedFrom(series, t0, rows) && t0.Keys <= t.Keys && Intact(series, t) && Effective(t0, k)
    ensures t[k] == t0[k]
  {
    EffectiveIsLoaded(series, t0, rows, k);
    var s := series[k.currency];
    var i: nat :| i < |s| && s[i] == Rate(k.date, t0[k], k.source);
    assert IntactSeries(t, k.currency, s) && StillEffective(t, k.currency, s[i]);
  }
}

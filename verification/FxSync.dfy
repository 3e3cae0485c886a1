/**
 * The resumable backfill of `fx_rate` from the central bank's feed. Any number of syncs (application instances) may run
 * at once, each reads where to resume from, fetches a date range and upserts it in chunks, and may die between chunks.
 * The feed is ascending and its past days are fixed: it only ever gains later days.
 */
module FxSync {
  import opened Domain
  import opened TextOrder

  const UPSERT_CHUNK := 1000

  datatype Day = Day(date: DateText, rate: real)

  /** A sync in progress: it knows where to resume from, or it holds the rows it still has to write. */
  datatype Job = Planned(from: DateText) | Writing(rows: seq<Day>)

  /** One currency: what the bank has published, what the table holds, who is syncing. */
  datatype State = State(feed: seq<Day>, stored: map<DateText, real>, jobs: map<nat, Job>)

  datatype Event =
    | Published(day: Day)
    | ReadLast(j: nat, from: DateText)
    | Fetch(j: nat, to: DateText)
    | Chunk(j: nat)
    | Fail(j: nat)

  ghost predicate Ascending(feed: seq<Day>) {
    forall i, k :: 0 <= i < k < |feed| ==> Lt(feed[i].date, feed[k].date)
  }

  ghost predicate IsMaxDate(stored: map<DateText, real>, d: DateText) {
    d in stored && forall e :: e in stored ==> Le(e, d)
  }

  /** Where a sync resumes: MAX(rate_date), or the configured start when there is nothing yet. */
  ghost predicate ResumesFrom(stored: map<DateText, real>, backfill: DateText, from: DateText) {
    if stored == map[] then from == backfill else IsMaxDate(stored, from)
  }

  predicate InRange(d: Day, from: DateText, to: DateText) { Le(from, d.date) && Le(d.date, to) }

  /** The answer of the feed to a range request, ascending. */
  function Range(feed: seq<Day>, from: DateText, to: DateText): seq<Day> {
    if feed == [] then []
    else
      var last := feed[|feed| - 1];
      Range(feed[..|feed| - 1], from, to) + if InRange(last, from, to) then [last] else []
  }

  /** INSERT ... ON CONFLICT DO UPDATE, row by row. */
  function Upsert(stored: map<DateText, real>, rows: seq<Day>): map<DateText, real> {
    if rows == [] then stored
    else Upsert(stored, rows[..|rows| - 1])[rows[|rows| - 1].date := rows[|rows| - 1].rate]
  }

  function ChunkSize(rows: seq<Day>): nat { if |rows| < UPSERT_CHUNK then |rows| else UPSERT_CHUNK }

  ghost function Step(backfill: DateText, s: State, e: Event): State {
    match e
    case Published(day) =>
      if s.feed != [] && !Lt(s.feed[|s.feed| - 1].date, day.date) then s else s.(feed := s.feed + [day])
    case ReadLast(j, from) =>
      if j in s.jobs || !ResumesFrom(s.stored, backfill, from) then s else s.(jobs := s.jobs[j := Planned(from)])
    case Fetch(j, to) =>
      if j !in s.jobs || !s.jobs[j].Planned? then s
      else s.(jobs := s.jobs[j := Writing(Range(s.feed, s.jobs[j].from, to))])
    case Chunk(j) =>
      if j !in s.jobs || !s.jobs[j].Writing? then s
      else
        var rows := s.jobs[j].rows;
        var n := ChunkSize(rows);
        s.(stored := Upsert(s.stored, rows[..n]),
           jobs := if n == |rows| then s.jobs - {j} else s.jobs[j := Writing(rows[n..])])
    case Fail(j) => s.(jobs := s.jobs - {j})
  }

  ghost function Exec(backfill: DateText, s: State, es: seq<Event>): State
    decreases |es|
  {
    if es == [] then s else Exec(backfill, Step(backfill, s, es[0]), es[1..])
  }

  // ----- the invariant -----

  /** Day i of the feed is one the table should come to hold. */
  predicate Due(backfill: DateText, s: State, i: nat)
    requires i < |s.feed|
  {
    Le(backfill, s.feed[i].date)
  }

  /** Every due day before index a is stored. */
  ghost predicate FilledUpTo(backfill: DateText, s: State, a: nat)
    requires a <= |s.feed|
  {
    forall i: nat :: i < a && Due(backfill, s, i) ==> s.feed[i].date in s.stored
  }

  /** The rows still to be written are a stretch of the feed with nothing missing before it. */
  ghost predicate Stretch(backfill: DateText, s: State, rows: seq<Day>, a: nat) {
    && a + |rows| <= |s.feed| && rows == s.feed[a..a + |rows|]
    && FilledUpTo(backfill, s, a)
    && forall i: nat :: a <= i < a + |rows| ==> Due(backfill, s, i)
  }

  ghost predicate JobSound(backfill: DateText, s: State, job: Job) {
    match job
    case Planned(from) => from == backfill || from in s.stored
    case Writing(rows) => exists a: nat :: Stretch(backfill, s, rows, a)
  }

  /** The table holds published days only, as published, and no day after a missing one. */
  ghost predicate TableSound(backfill: DateText, s: State) {
    && Ascending(s.feed)
    && (forall d :: d in s.stored ==> exists i: nat :: i < |s.feed| && s.feed[i] == Day(d, s.stored[d]) && Due(backfill, s, i))
    && (forall k: nat :: k < |s.feed| && s.feed[k].date in s.stored ==> FilledUpTo(backfill, s, k))
  }

  ghost predicate Inv(backfill: DateText, s: State) {
    TableSound(backfill, s) && forall j :: j in s.jobs ==> JobSound(backfill, s, s.jobs[j])
  }

  // ----- the feed answers with a stretch -----

  /** An ascending feed splits at any date. */
  lemma {:induction false} SplitBefore(feed: seq<Day>, d: DateText) returns (n: nat)
    requires Ascending(feed)
    ensures n <= |feed|
    ensures forall i :: 0 <= i < n ==> !Le(d, feed[i].date)
    ensures forall i :: n <= i < |feed| ==> Le(d, feed[i].date)
  {
    if feed == [] {
      n := 0;
    } else {
      var last := feed[|feed| - 1];
      if Le(d, last.date) {
        n := SplitBefore(feed[..|feed| - 1], d);
      } else {
        n := |feed|;
        forall i | 0 <= i < |feed| - 1 ensures !Le(d, feed[i].date) {
          if Le(d, feed[i].date) { Transitive(d, feed[i].date, last.date); }
        }
      }
    }
  }

  lemma {:induction false} SplitAfter(feed: seq<Day>, d: DateText) returns (n: nat)
    requires Ascending(feed)
    ensures n <= |feed|
    ensures forall i :: 0 <= i < n ==> Le(feed[i].date, d)
    ensures forall i :: n <= i < |feed| ==> !Le(feed[i].date, d)
  {
    if feed == [] {
      n := 0;
    } else {
      var last := feed[|feed| - 1];
      if !Le(last.date, d) {
        n := SplitAfter(feed[..|feed| - 1], d);
      } else {
        n := |feed|;
        forall i | 0 <= i < |feed| - 1 ensures Le(feed[i].date, d) { Transitive(feed[i].date, last.date, d); }
      }
    }
  }

  lemma {:induction false} RangeIs(feed: seq<Day>, from: DateText, to: DateText, a: nat, b: nat)
    requires a <= b <= |feed|
    requires forall i :: 0 <= i < a ==> !InRange(feed[i], from, to)
    requires forall i :: a <= i < b ==> InRange(feed[i], from, to)
    requires forall i :: b <= i < |feed| ==> !InRange(feed[i], from, to)
    ensures Range(feed, from, to) == feed[a..b]
  {
    if feed != [] {
      var n := |feed| - 1;
      var front := feed[..n];
      if b == |feed| && a < b {
        RangeIs(front, from, to, a, n);
        assert feed[a..b] == front[a..n] + [feed[n]];
      } else if b == |feed| {
        RangeIs(front, from, to, n, n);
        assert feed[a..b] == [];
      } else {
        RangeIs(front, from, to, a, b);
        assert feed[a..b] == front[a..b];
      }
    }
  }

  /** A range request is answered with a stretch of the feed. */
  lemma RangeIsSlice(feed: seq<Day>, from: DateText, to: DateText) returns (a: nat, b: nat)
    requires Ascending(feed)
    ensures a <= b <= |feed| && Range(feed, from, to) == feed[a..b]
    ensures forall i :: 0 <= i < a ==> !Le(from, feed[i].date)
    ensures forall i :: a <= i < |feed| ==> Le(from, feed[i].date)
    ensures forall i :: a <= i < b ==> InRange(feed[i], from, to)
    ensures forall i :: b <= i < |feed| ==> !InRange(feed[i], from, to)
  {
    a := SplitBefore(feed, from);
    b := SplitAfter(feed, to);
    b := if b < a then a else b;
    RangeIs(feed, from, to, a, b);
  }

  /** No later row has the date of row i. */
  ghost predicate IsLastOfDate(rows: seq<Day>, i: nat)
    requires i < |rows|
  {
    forall k :: i < k < |rows| ==> rows[k].date != rows[i].date
  }

  ghost predicate NoRowOf(rows: seq<Day>, d: DateText) { forall i :: 0 <= i < |rows| ==> rows[i].date != d }

  lemma {:induction false} LastRowIsStored(stored: map<DateText, real>, rows: seq<Day>, i: nat)
    requires i < |rows| && IsLastOfDate(rows, i)
    ensures rows[i].date in Upsert(stored, rows) && Upsert(stored, rows)[rows[i].date] == rows[i].rate
    decreases |rows|
  {
    var n := |rows| - 1;
    if i < n {
      assert IsLastOfDate(rows[..n], i);
      LastRowIsStored(stored, rows[..n], i);
      assert rows[n].date != rows[i].date;
    }
  }

  lemma {:induction false} OtherDatesStay(stored: map<DateText, real>, rows: seq<Day>, d: DateText)
    requires NoRowOf(rows, d)
    ensures d in Upsert(stored, rows) <==> d in stored
    ensures d in stored ==> Upsert(stored, rows)[d] == stored[d]
    decreases |rows|
  {
    if rows != [] {
      var n := |rows| - 1;
      OtherDatesStay(stored, rows[..n], d);
      assert rows[n].date != d;
    }
  }

  /** Each date among the rows holds the rate of its last row; every other date is as it was. */
  ghost predicate LastRowWins(stored: map<DateText, real>, rows: seq<Day>, after: map<DateText, real>) {
    && (forall i: nat :: i < |rows| && IsLastOfDate(rows, i) ==> rows[i].date in after && after[rows[i].date] == rows[i].rate)
    && (forall d :: NoRowOf(rows, d) ==> (d in after <==> d in stored) && (d in stored ==> after[d] == stored[d]))
  }

  lemma UpsertKeepsTheLast(stored: map<DateText, real>, rows: seq<Day>)
    ensures LastRowWins(stored, rows, Upsert(stored, rows))
  {
    forall i: nat | i < |rows| && IsLastOfDate(rows, i)
      ensures rows[i].date in Upsert(stored, rows) && Upsert(stored, rows)[rows[i].date] == rows[i].rate
    {
      LastRowIsStored(stored, rows, i);
    }
    forall d | NoRowOf(rows, d)
      ensures (d in Upsert(stored, rows) <==> d in stored) && (d in stored ==> Upsert(stored, rows)[d] == stored[d])
    {
      OtherDatesStay(stored, rows, d);
    }
  }

  // ----- every step keeps the invariant -----

  lemma {:induction false} UpsertIs(stored: map<DateText, real>, rows: seq<Day>)
    ensures forall d :: d in Upsert(stored, rows) <==> d in stored || exists i :: 0 <= i < |rows| && rows[i].date == d
    ensures forall d :: d in Upsert(stored, rows) ==>
      (d in stored && Upsert(stored, rows)[d] == stored[d]) || Day(d, Upsert(stored, rows)[d]) in rows
  {
    if rows != [] {
      var front, last := rows[..|rows| - 1], rows[|rows| - 1];
      UpsertIs(stored, front);
      assert rows[|rows| - 1] == last;
      forall d | d in Upsert(stored, front)
        ensures d in stored || exists i :: 0 <= i < |rows| && rows[i].date == d
      {
        if d !in stored {
          var i :| 0 <= i < |front| && front[i].date == d;
          assert rows[i].date == d;
        }
      }
    }
  }

  lemma PublishKeepsInv(backfill: DateText, s: State, day: Day)
    requires Inv(backfill, s)
    ensures Inv(backfill, Step(backfill, s, Published(day)))
  {
    var s' := Step(backfill, s, Published(day));
    if s' != s {
      assert Ascending(s'.feed) by {
        forall i | 0 <= i < |s.feed| ensures Lt(s.feed[i].date, day.date) {
          if i < |s.feed| - 1 { LtLe(s.feed[i].date, s.feed[|s.feed| - 1].date, day.date); }
        }
      }
      NewDayIsNotStored(backfill, s, day);
      forall d | d in s'.stored
        ensures exists i: nat :: i < |s'.feed| && s'.feed[i] == Day(d, s'.stored[d]) && Due(backfill, s', i)
      {
        var i: nat :| i < |s.feed| && s.feed[i] == Day(d, s.stored[d]) && Due(backfill, s, i);
        assert s'.feed[i] == s.feed[i] && Due(backfill, s', i);
      }
      forall k: nat | k < |s'.feed| && s'.feed[k].date in s'.stored ensures FilledUpTo(backfill, s', k) {
        assert FilledUpTo(backfill, s, k);
        forall i: nat | i < k && Due(backfill, s', i) ensures s'.feed[i].date in s'.stored { assert Due(backfill, s, i); }
      }
      forall j | j in s'.jobs ensures JobSound(backfill, s', s'.jobs[j]) {
        assert JobSound(backfill, s, s.jobs[j]);
        if s.jobs[j].Writing? {
          var rows := s.jobs[j].rows;
          var a: nat :| Stretch(backfill, s, rows, a);
          StretchSurvivesPublishing(backfill, s, s', rows, a);
        }
      }
    }
  }

  lemma NewDayIsNotStored(backfill: DateText, s: State, day: Day)
    requires TableSound(backfill, s) && Step(backfill, s, Published(day)) != s
    ensures day.date !in s.stored
  {
    if day.date in s.stored {
      var i: nat :| i < |s.feed| && s.feed[i] == Day(day.date, s.stored[day.date]) && Due(backfill, s, i);
      var last := s.feed[|s.feed| - 1].date;
      if i < |s.feed| - 1 {
        LtLe(day.date, last, day.date);
      }
    }
  }

  lemma StretchSurvivesPublishing(backfill: DateText, s: State, s': State, rows: seq<Day>, a: nat)
    requires Stretch(backfill, s, rows, a) && s.feed <= s'.feed && s'.stored == s.stored
    ensures Stretch(backfill, s', rows, a)
  {
    forall i: nat | i < a && Due(backfill, s', i) ensures s'.feed[i].date in s'.stored { assert Due(backfill, s, i); }
    forall i: nat | a <= i < a + |rows| ensures Due(backfill, s', i) { assert Due(backfill, s, i); }
  }

  // ----- what a job holds survives a growing table -----

  ghost predicate Grows(s: State, s': State) {
    s'.feed == s.feed && forall d :: d in s.stored ==> d in s'.stored
  }

  lemma FilledSurvives(backfill: DateText, s: State, s': State, a: nat)
    requires a <= |s.feed| && FilledUpTo(backfill, s, a) && Grows(s, s')
    ensures FilledUpTo(backfill, s', a)
  {
    forall i: nat | i < a && Due(backfill, s', i) ensures s'.feed[i].date in s'.stored { assert Due(backfill, s, i); }
  }

  lemma JobSurvives(backfill: DateText, s: State, s': State, job: Job)
    requires JobSound(backfill, s, job) && Grows(s, s')
    ensures JobSound(backfill, s', job)
  {
    if job.Writing? {
      var a: nat :| Stretch(backfill, s, job.rows, a);
      FilledSurvives(backfill, s, s', a);
      forall i: nat | a <= i < a + |job.rows| ensures Due(backfill, s', i) { assert Due(backfill, s, i); }
      assert Stretch(backfill, s', job.rows, a);
    }
  }

  /** Nothing but the set of jobs changed. */
  lemma SameTableSound(backfill: DateText, s: State, s': State)
    requires TableSound(backfill, s) && s'.feed == s.feed && s'.stored == s.stored
    ensures TableSound(backfill, s')
  {
    forall d | d in s'.stored
      ensures exists i: nat :: i < |s'.feed| && s'.feed[i] == Day(d, s'.stored[d]) && Due(backfill, s', i)
    {
      var i: nat :| i < |s.feed| && s.feed[i] == Day(d, s.stored[d]) && Due(backfill, s, i);
      assert Due(backfill, s', i);
    }
    forall k: nat | k < |s'.feed| && s'.feed[k].date in s'.stored ensures FilledUpTo(backfill, s', k) {
      FilledSurvives(backfill, s, s', k);
    }
  }

  lemma ReadLastKeepsInv(backfill: DateText, s: State, j: nat, from: DateText)
    requires Inv(backfill, s)
    ensures Inv(backfill, Step(backfill, s, ReadLast(j, from)))
  {
    var s' := Step(backfill, s, ReadLast(j, from));
    SameTableSound(backfill, s, s');
    forall i | i in s'.jobs ensures JobSound(backfill, s', s'.jobs[i]) {
      if i in s.jobs { JobSurvives(backfill, s, s', s.jobs[i]); }
    }
  }

  /** Everything due before the resume point is stored, so what is fetched continues the table. */
  lemma FetchedIsStretch(backfill: DateText, s: State, from: DateText, to: DateText)
    requires TableSound(backfill, s) && JobSound(backfill, s, Planned(from))
    ensures JobSound(backfill, s, Writing(Range(s.feed, from, to)))
  {
    var a, b := RangeIsSlice(s.feed, from, to);
    var rows := Range(s.feed, from, to);
    ResumePointIsFilled(backfill, s, from, a);
    forall i: nat | a <= i < a + |rows| ensures Due(backfill, s, i) {
      assert InRange(s.feed[i], from, to);
      ResumePointIsDue(backfill, s, from);
      Transitive(backfill, from, s.feed[i].date);
    }
    assert Stretch(backfill, s, rows, a);
  }

  lemma ResumePointIsDue(backfill: DateText, s: State, from: DateText)
    requires TableSound(backfill, s) && JobSound(backfill, s, Planned(from))
    ensures Le(backfill, from)
  {
    if from in s.stored {
      var k: nat :| k < |s.feed| && s.feed[k] == Day(from, s.stored[from]) && Due(backfill, s, k);
    } else {
      Reflexive(backfill);
    }
  }

  lemma ResumePointIsFilled(backfill: DateText, s: State, from: DateText, a: nat)
    requires TableSound(backfill, s) && JobSound(backfill, s, Planned(from))
    requires a <= |s.feed| && forall i :: 0 <= i < a ==> !Le(from, s.feed[i].date)
    ensures FilledUpTo(backfill, s, a)
  {
    if from in s.stored {
      var k: nat :| k < |s.feed| && s.feed[k] == Day(from, s.stored[from]) && Due(backfill, s, k);
      Reflexive(from);
      assert a <= k;
      assert FilledUpTo(backfill, s, k);
    }
  }

  lemma FetchKeepsInv(backfill: DateText, s: State, j: nat, to: DateText)
    requires Inv(backfill, s)
    ensures Inv(backfill, Step(backfill, s, Fetch(j, to)))
  {
    var s' := Step(backfill, s, Fetch(j, to));
    SameTableSound(backfill, s, s');
    forall i | i in s'.jobs ensures JobSound(backfill, s', s'.jobs[i]) {
      assert JobSound(backfill, s, s.jobs[i]);
      if s'.jobs[i] != s.jobs[i] { FetchedIsStretch(backfill, s, s.jobs[i].from, to); }
      JobSurvives(backfill, s, s', s'.jobs[i]);
    }
  }

  /** The state after the first n rows of a stretch have been written. */
  lemma PrefixKeepsTable(backfill: DateText, s: State, s': State, rows: seq<Day>, a: nat, n: nat)
    requires TableSound(backfill, s) && Stretch(backfill, s, rows, a) && n <= |rows|
    requires s'.feed == s.feed && s'.stored == Upsert(s.stored, rows[..n])
    ensures Grows(s, s') && FilledUpTo(backfill, s', a + n) && TableSound(backfill, s')
  {
    UpsertIs(s.stored, rows[..n]);
    PrefixIsFilled(backfill, s, s', rows, a, n);
    forall d | d in s'.stored
      ensures exists i: nat :: i < |s'.feed| && s'.feed[i] == Day(d, s'.stored[d]) && Due(backfill, s', i)
    {
      PublishedAndDue(backfill, s, s', rows, a, n, d);
    }
    forall k: nat | k < |s'.feed| && s'.feed[k].date in s'.stored ensures FilledUpTo(backfill, s', k) {
      if s.feed[k].date in s.stored {
        FilledSurvives(backfill, s, s', k);
      } else {
        var i :| 0 <= i < |rows[..n]| && rows[..n][i].date == s.feed[k].date;
        assert rows[..n][i] == s.feed[a + i];
        assert a + i == k by { SameDateSameDay(s.feed, a + i, k); }
      }
    }
  }

  lemma SameDateSameDay(feed: seq<Day>, i: nat, k: nat)
    requires Ascending(feed) && i < |feed| && k < |feed| && feed[i].date == feed[k].date
    ensures i == k
  {
  }

  lemma PrefixIsFilled(backfill: DateText, s: State, s': State, rows: seq<Day>, a: nat, n: nat)
    requires Stretch(backfill, s, rows, a) && n <= |rows|
    requires s'.feed == s.feed && s'.stored == Upsert(s.stored, rows[..n])
    ensures FilledUpTo(backfill, s', a + n)
  {
    UpsertIs(s.stored, rows[..n]);
    forall i: nat | i < a + n && Due(backfill, s', i) ensures s'.feed[i].date in s'.stored {
      if i < a { assert Due(backfill, s, i); } else { assert rows[..n][i - a] == s.feed[i]; }
    }
  }

  lemma PublishedAndDue(backfill: DateText, s: State, s': State, rows: seq<Day>, a: nat, n: nat, d: DateText)
    requires TableSound(backfill, s) && Stretch(backfill, s, rows, a) && n <= |rows|
    requires s'.feed == s.feed && s'.stored == Upsert(s.stored, rows[..n]) && d in s'.stored
    ensures exists i: nat :: i < |s'.feed| && s'.feed[i] == Day(d, s'.stored[d]) && Due(backfill, s', i)
  {
    UpsertIs(s.stored, rows[..n]);
    var day := Day(d, s'.stored[d]);
    if day in rows[..n] {
      var i :| 0 <= i < n && rows[i] == day;
      assert s.feed[a + i] == day && Due(backfill, s, a + i);
      assert Due(backfill, s', a + i);
    } else {
      var i: nat :| i < |s.feed| && s.feed[i] == Day(d, s.stored[d]) && Due(backfill, s, i);
      assert Due(backfill, s', i);
    }
  }

  lemma ChunkKeepsInv(backfill: DateText, s: State, j: nat)
    requires Inv(backfill, s)
    ensures Inv(backfill, Step(backfill, s, Chunk(j)))
  {
    var s' := Step(backfill, s, Chunk(j));
    if j in s.jobs && s.jobs[j].Writing? {
      assert JobSound(backfill, s, s.jobs[j]);
      var rows := s.jobs[j].rows;
      var a: nat :| Stretch(backfill, s, rows, a);
      var n := ChunkSize(rows);
      PrefixKeepsTable(backfill, s, s', rows, a, n);
      RestIsStretch(backfill, s, s', rows, a, n);
      forall i | i in s'.jobs ensures JobSound(backfill, s', s'.jobs[i]) {
        if i != j { JobSurvives(backfill, s, s', s.jobs[i]); }
      }
    }
  }

  lemma RestIsStretch(backfill: DateText, s: State, s': State, rows: seq<Day>, a: nat, n: nat)
    requires Stretch(backfill, s, rows, a) && n <= |rows| && s'.feed == s.feed && FilledUpTo(backfill, s', a + n)
    ensures JobSound(backfill, s', Writing(rows[n..]))
  {
    forall i: nat | a + n <= i < a + |rows| ensures Due(backfill, s', i) { assert Due(backfill, s, i); }
    assert rows[n..] == s'.feed[a + n..a + n + |rows[n..]|];
    assert Stretch(backfill, s', rows[n..], a + n);
  }

  lemma StepKeepsInv(backfill: DateText, s: State, e: Event)
    requires Inv(backfill, s)
    ensures Inv(backfill, Step(backfill, s, e))
  {
    match e
    case Published(day) => PublishKeepsInv(backfill, s, day);
    case ReadLast(j, from) => ReadLastKeepsInv(backfill, s, j, from);
    case Fetch(j, to) => FetchKeepsInv(backfill, s, j, to);
    case Chunk(j) => ChunkKeepsInv(backfill, s, j);
    case Fail(j) =>
      var s' := Step(backfill, s, e);
      SameTableSound(backfill, s, s');
      forall i | i in s'.jobs ensures JobSound(backfill, s', s'.jobs[i]) { JobSurvives(backfill, s, s', s.jobs[i]); }
  }

  lemma {:induction false} InvAlways(backfill: DateText, s: State, es: seq<Event>)
    requires Inv(backfill, s)
    ensures Inv(backfill, Exec(backfill, s, es))
    decreases |es|
  {
    if es != [] {
      StepKeepsInv(backfill, s, es[0]);
      InvAlways(backfill, Step(backfill, s, es[0]), es[1..]);
    }
  }

  // ----- the theorems -----

  /** Day i of the feed is in the table, at the published rate. */
  predicate Has(s: State, day: Day) { day.date in s.stored && s.stored[day.date] == day.rate }

  lemma StoredAsPublished(backfill: DateText, s: State, i: nat)
    requires TableSound(backfill, s) && i < |s.feed| && s.feed[i].date in s.stored
    ensures Has(s, s.feed[i])
  {
    var d := s.feed[i].date;
    var k: nat :| k < |s.feed| && s.feed[k] == Day(d, s.stored[d]) && Due(backfill, s, k);
    SameDateSameDay(s.feed, i, k);
  }

  /** Every published day from the backfill start to `last` is stored, at its published rate. */
  ghost predicate Gapless(backfill: DateText, s: State, last: DateText) {
    forall day :: day in s.feed && InRange(day, backfill, last) ==> Has(s, day)
  }

  /** Everything stored was published, at that rate, on or after the backfill start. */
  ghost predicate OnlyPublished(backfill: DateText, s: State) {
    forall d :: d in s.stored ==> Day(d, s.stored[d]) in s.feed && Le(backfill, d)
  }

  const EMPTY := State([], map[], map[])

  /**
   * No holes: from an empty table, after any interleaving of any number of syncs, each possibly dying between two
   * chunks, the table is the published history from the backfill start to MAX(rate_date), and nothing else.
   */
  lemma NoHoles(backfill: DateText, es: seq<Event>, last: DateText)
    requires IsMaxDate(Exec(backfill, EMPTY, es).stored, last)
    ensures Gapless(backfill, Exec(backfill, EMPTY, es), last)
    ensures OnlyPublished(backfill, Exec(backfill, EMPTY, es))
  {
    InvAlways(backfill, EMPTY, es);
    SoundIsGapless(backfill, Exec(backfill, EMPTY, es), last);
    SoundIsPublished(backfill, Exec(backfill, EMPTY, es));
  }

  lemma SoundIsGapless(backfill: DateText, s: State, last: DateText)
    requires TableSound(backfill, s) && IsMaxDate(s.stored, last)
    ensures Gapless(backfill, s, last)
  {
    var k: nat :| k < |s.feed| && s.feed[k] == Day(last, s.stored[last]) && Due(backfill, s, k);
    forall day | day in s.feed && InRange(day, backfill, last) ensures Has(s, day) {
      var i: nat :| i < |s.feed| && s.feed[i] == day;
      FilledBefore(backfill, s, i, k);
      StoredAsPublished(backfill, s, i);
    }
  }

  lemma FilledBefore(backfill: DateText, s: State, i: nat, k: nat)
    requires TableSound(backfill, s) && i < |s.feed| && k < |s.feed| && s.feed[k].date in s.stored
    requires InRange(s.feed[i], backfill, s.feed[k].date)
    ensures s.feed[i].date in s.stored
  {
    assert FilledUpTo(backfill, s, k);
    if i < k {
      assert Due(backfill, s, i);
    } else if i > k {
      LtLe(s.feed[k].date, s.feed[i].date, s.feed[k].date);
    }
  }

  lemma SoundIsPublished(backfill: DateText, s: State)
    requires TableSound(backfill, s)
    ensures OnlyPublished(backfill, s)
  {
    forall d | d in s.stored ensures Day(d, s.stored[d]) in s.feed && Le(backfill, d) {
      var i: nat :| i < |s.feed| && s.feed[i] == Day(d, s.stored[d]) && Due(backfill, s, i);
    }
  }

  // ----- a sync that does not die is complete -----

  predicate StillToWrite(s: State, j: nat, day: Day) {
    j in s.jobs && s.jobs[j].Writing? && day in s.jobs[j].rows
  }

  /** Each of these days is stored, or is among the rows sync j still has to write. */
  ghost predicate Covered(s: State, j: nat, days: seq<Day>) {
    forall i :: 0 <= i < |days| ==> days[i].date in s.stored || StillToWrite(s, j, days[i])
  }

  lemma StepGrows(backfill: DateText, s: State, e: Event)
    ensures forall d :: d in s.stored ==> d in Step(backfill, s, e).stored
  {
    if e.Chunk? && e.j in s.jobs && s.jobs[e.j].Writing? {
      var rows := s.jobs[e.j].rows;
      UpsertIs(s.stored, rows[..ChunkSize(rows)]);
    }
  }

  lemma StepKeepsCovered(backfill: DateText, s: State, e: Event, j: nat, days: seq<Day>)
    requires Covered(s, j, days) && e != Fail(j)
    ensures Covered(Step(backfill, s, e), j, days)
  {
    var s' := Step(backfill, s, e);
    StepGrows(backfill, s, e);
    forall i | 0 <= i < |days| ensures days[i].date in s'.stored || StillToWrite(s', j, days[i]) {
      if days[i].date !in s.stored && e == Chunk(j) {
        var rows := s.jobs[j].rows;
        var n := ChunkSize(rows);
        UpsertIs(s.stored, rows[..n]);
        var k :| 0 <= k < |rows| && rows[k] == days[i];
        if k < n { assert rows[..n][k] == days[i]; } else { assert rows[n..][k - n] == days[i]; }
      }
    }
  }

  lemma {:induction false} RunKeepsCovered(backfill: DateText, s: State, es: seq<Event>, j: nat, days: seq<Day>)
    requires Covered(s, j, days) && Fail(j) !in es
    ensures Covered(Exec(backfill, s, es), j, days)
    decreases |es|
  {
    if es != [] {
      StepKeepsCovered(backfill, s, es[0], j, days);
      RunKeepsCovered(backfill, Step(backfill, s, es[0]), es[1..], j, days);
    }
  }

  /**
   * Whatever else runs beside it (other instances, later publications), once a sync that was answered up to `to` has
   * written its last chunk, every day published by then from the backfill start to `to` is stored.
   */
  lemma FinishedSyncIsComplete(backfill: DateText, s: State, j: nat, to: DateText, es: seq<Event>)
    requires Inv(backfill, s) && j in s.jobs && s.jobs[j].Planned?
    requires Fail(j) !in es && j !in Exec(backfill, Step(backfill, s, Fetch(j, to)), es).jobs
    ensures forall i :: 0 <= i < |s.feed| && InRange(s.feed[i], backfill, to) ==>
      s.feed[i].date in Exec(backfill, Step(backfill, s, Fetch(j, to)), es).stored
  {
    var days := Range(s.feed, backfill, to);
    FetchCovers(backfill, s, j, to);
    RunKeepsCovered(backfill, Step(backfill, s, Fetch(j, to)), es, j, days);
    var s' := Exec(backfill, Step(backfill, s, Fetch(j, to)), es);
    forall i | 0 <= i < |s.feed| && InRange(s.feed[i], backfill, to) ensures s.feed[i].date in s'.stored {
      var a, b := RangeIsSlice(s.feed, backfill, to);
      assert days[i - a] == s.feed[i];
      assert !StillToWrite(s', j, days[i - a]);
    }
  }

  lemma FetchCovers(backfill: DateText, s: State, j: nat, to: DateText)
    requires Inv(backfill, s) && j in s.jobs && s.jobs[j].Planned?
    ensures Covered(Step(backfill, s, Fetch(j, to)), j, Range(s.feed, backfill, to))
  {
    var from, s' := s.jobs[j].from, Step(backfill, s, Fetch(j, to));
    assert JobSound(backfill, s, s.jobs[j]);
    var a, b := RangeIsSlice(s.feed, from, to);
    var a0, b0 := RangeIsSlice(s.feed, backfill, to);
    ResumePointIsFilled(backfill, s, from, a);
    var days := Range(s.feed, backfill, to);
    forall i | 0 <= i < |days| ensures days[i].date in s'.stored || StillToWrite(s', j, days[i]) {
      assert days[i] == s.feed[a0 + i] && InRange(s.feed[a0 + i], backfill, to);
      if a0 + i < a {
        assert Due(backfill, s, a0 + i);
      } else {
        assert a0 + i < b;
        assert s.feed[a..b][a0 + i - a] == days[i];
      }
    }
  }

  // ----- syncs up to one date settle on one table -----

  /** Syncs that ask for nothing after `hi`, while nothing is published. */
  predicate Calm(es: seq<Event>, hi: DateText) {
    forall i :: 0 <= i < |es| ==> !es[i].Published? && (es[i].Fetch? ==> Le(es[i].to, hi))
  }

  /** Every row a sync still has to write is dated up to `hi`. */
  ghost predicate Bounded(s: State, hi: DateText) {
    forall j :: j in s.jobs && s.jobs[j].Writing? ==>
      forall i :: 0 <= i < |s.jobs[j].rows| ==> Le(s.jobs[j].rows[i].date, hi)
  }

  /** What a calm run may add: days up to `hi`. */
  ghost predicate AddsUpTo(s: State, s': State, hi: DateText) {
    && Grows(s, s')
    && forall d :: d in s'.stored ==> d in s.stored || Le(d, hi)
  }

  lemma FetchIsBounded(backfill: DateText, s: State, j: nat, to: DateText, hi: DateText)
    requires Ascending(s.feed) && Bounded(s, hi) && Le(to, hi)
    ensures Bounded(Step(backfill, s, Fetch(j, to)), hi)
  {
    if j in s.jobs && s.jobs[j].Planned? {
      var rows := Range(s.feed, s.jobs[j].from, to);
      var a, b := RangeIsSlice(s.feed, s.jobs[j].from, to);
      forall i | 0 <= i < |rows| ensures Le(rows[i].date, hi) {
        assert rows[i] == s.feed[a + i] && InRange(s.feed[a + i], s.jobs[j].from, to);
        Transitive(rows[i].date, to, hi);
      }
    }
  }

  lemma ChunkIsBounded(backfill: DateText, s: State, j: nat, hi: DateText)
    requires Bounded(s, hi)
    ensures Bounded(Step(backfill, s, Chunk(j)), hi) && AddsUpTo(s, Step(backfill, s, Chunk(j)), hi)
  {
    if j in s.jobs && s.jobs[j].Writing? {
      var rows := s.jobs[j].rows;
      var n := ChunkSize(rows);
      UpsertIs(s.stored, rows[..n]);
    }
  }

  lemma {:induction false} RunAddsUpTo(backfill: DateText, s: State, es: seq<Event>, hi: DateText)
    requires Inv(backfill, s) && Bounded(s, hi) && Calm(es, hi)
    ensures AddsUpTo(s, Exec(backfill, s, es), hi)
    decreases |es|
  {
    if es != [] {
      var s' := Step(backfill, s, es[0]);
      StepKeepsInv(backfill, s, es[0]);
      assert Bounded(s', hi) && AddsUpTo(s, s', hi) by {
        if es[0].Fetch? { FetchIsBounded(backfill, s, es[0].j, es[0].to, hi); }
        if es[0].Chunk? { ChunkIsBounded(backfill, s, es[0].j, hi); }
      }
      RunAddsUpTo(backfill, s', es[1..], hi);
    }
  }

  /**
   * However the syncs were chunked, interrupted and interleaved, once the days up to `hi` are there the table is what
   * one uninterrupted upsert of the whole range would have made of it.
   */
  lemma SettlesOnOneTable(backfill: DateText, s: State, es: seq<Event>, hi: DateText)
    requires Inv(backfill, s) && s.jobs == map[] && Calm(es, hi)
    requires Gapless(backfill, Exec(backfill, s, es), hi)
    ensures Exec(backfill, s, es).stored == Upsert(s.stored, Range(s.feed, backfill, hi))
  {
    InvAlways(backfill, s, es);
    RunAddsUpTo(backfill, s, es, hi);
    OneShotIsTheTable(backfill, s, Exec(backfill, s, es), hi);
  }

  lemma OneShotIsTheTable(backfill: DateText, s: State, s': State, hi: DateText)
    requires TableSound(backfill, s) && TableSound(backfill, s') && AddsUpTo(s, s', hi) && Gapless(backfill, s', hi)
    ensures s'.stored == Upsert(s.stored, Range(s.feed, backfill, hi))
  {
    var one := Upsert(s.stored, Range(s.feed, backfill, hi));
    forall d ensures SameAt(s'.stored, one, d) {
      if d in s'.stored { StoredIsInOneShot(backfill, s, s', hi, d); }
      if d in one { OneShotIsStored(backfill, s, s', hi, d); }
    }
    SameEverywhere(s'.stored, one);
  }

  predicate SameAt(x: map<DateText, real>, y: map<DateText, real>, d: DateText) {
    if d in x then d in y && x[d] == y[d] else d !in y
  }

  lemma SameEverywhere(x: map<DateText, real>, y: map<DateText, real>)
    requires forall d :: SameAt(x, y, d)
    ensures x == y
  {
    forall d ensures d in x <==> d in y { assert SameAt(x, y, d); }
    forall d | d in x ensures x[d] == y[d] { assert SameAt(x, y, d); }
  }

  lemma StoredIsInOneShot(backfill: DateText, s: State, s': State, hi: DateText, d: DateText)
    requires TableSound(backfill, s') && AddsUpTo(s, s', hi) && d in s'.stored
    ensures d in Upsert(s.stored, Range(s.feed, backfill, hi))
  {
    var rows := Range(s.feed, backfill, hi);
    UpsertIs(s.stored, rows);
    if d !in s.stored {
      SoundIsPublished(backfill, s');
      InTheSlice(backfill, s.feed, Day(d, s'.stored[d]), hi);
      var i :| 0 <= i < |rows| && rows[i] == Day(d, s'.stored[d]);
      assert rows[i].date == d;
    }
  }

  lemma OneShotIsStored(backfill: DateText, s: State, s': State, hi: DateText, d: DateText)
    requires TableSound(backfill, s) && TableSound(backfill, s') && AddsUpTo(s, s', hi) && Gapless(backfill, s', hi)
    requires d in Upsert(s.stored, Range(s.feed, backfill, hi))
    ensures d in s'.stored && s'.stored[d] == Upsert(s.stored, Range(s.feed, backfill, hi))[d]
  {
    OneShotIsPublished(backfill, s, hi, d);
    var day := Day(d, Upsert(s.stored, Range(s.feed, backfill, hi))[d]);
    if d !in s.stored {
      assert Has(s', day);
    } else {
      SoundIsPublished(backfill, s');
      SameDateSameRate(s.feed, day, Day(d, s'.stored[d]));
    }
  }

  lemma InTheSlice(backfill: DateText, feed: seq<Day>, day: Day, hi: DateText)
    requires Ascending(feed) && day in feed && InRange(day, backfill, hi)
    ensures day in Range(feed, backfill, hi)
  {
    var a, b := RangeIsSlice(feed, backfill, hi);
    var i :| 0 <= i < |feed| && feed[i] == day;
    assert feed[a..b][i - a] == day;
  }

  lemma OneShotIsPublished(backfill: DateText, s: State, hi: DateText, d: DateText)
    requires TableSound(backfill, s) && d in Upsert(s.stored, Range(s.feed, backfill, hi))
    ensures Day(d, Upsert(s.stored, Range(s.feed, backfill, hi))[d]) in s.feed
    ensures d in s.stored || InRange(Day(d, Upsert(s.stored, Range(s.feed, backfill, hi))[d]), backfill, hi)
  {
    var rows := Range(s.feed, backfill, hi);
    UpsertIs(s.stored, rows);
    SoundIsPublished(backfill, s);
    var day := Day(d, Upsert(s.stored, rows)[d]);
    if day in rows {
      var a, b := RangeIsSlice(s.feed, backfill, hi);
      var i :| 0 <= i < |rows| && rows[i] == day;
      assert s.feed[a + i] == day;
    }
  }

  lemma SameDateSameRate(feed: seq<Day>, x: Day, y: Day)
    requires Ascending(feed) && x in feed && y in feed && x.date == y.date
    ensures x == y
  {
    var i: nat :| i < |feed| && feed[i] == x;
    var k: nat :| k < |feed| && feed[k] == y;
    SameDateSameDay(feed, i, k);
  }

  /** Re-running any syncs over days that are all there changes nothing. */
  lemma RerunChangesNothing(backfill: DateText, s: State, es: seq<Event>, hi: DateText)
    requires Inv(backfill, s) && s.jobs == map[] && Calm(es, hi) && Gapless(backfill, s, hi)
    ensures Exec(backfill, s, es).stored == s.stored
  {
    InvAlways(backfill, s, es);
    RunAddsUpTo(backfill, s, es, hi);
    var s' := Exec(backfill, s, es);
    SoundIsPublished(backfill, s);
    SoundIsPublished(backfill, s');
    forall d | d in s'.stored ensures d in s.stored && s.stored[d] == s'.stored[d] {
      var day := Day(d, s'.stored[d]);
      if Le(d, hi) { assert Has(s, day); } else { SameDateSameRate(s.feed, day, Day(d, s.stored[d])); }
    }
  }

  // ----- currencies -----

  datatype At = At(currency: string, event: Event)

  /** All currencies at once. `source`, `currency` and `rate_date` are the conflict key, so a write is one currency's. */
  ghost function ExecAll(backfill: DateText, all: map<string, State>, es: seq<At>): map<string, State>
    decreases |es|
  {
    if es == [] then all
    else
      var c := es[0].currency;
      ExecAll(backfill, if c in all then all[c := Step(backfill, all[c], es[0].event)] else all, es[1..])
  }

  function Of(es: seq<At>, currency: string): seq<Event> {
    if es == [] then [] else (if es[0].currency == currency then [es[0].event] else []) + Of(es[1..], currency)
  }

  /** A currency's table depends on its own events alone, so neither the interleaving nor another's failure matters. */
  lemma {:induction false} CurrenciesAreIndependent(backfill: DateText, all: map<string, State>, es: seq<At>, c: string)
    requires c in all
    ensures c in ExecAll(backfill, all, es) && ExecAll(backfill, all, es)[c] == Exec(backfill, all[c], Of(es, c))
    decreases |es|
  {
    if es != [] {
      var d := es[0].currency;
      var all' := if d in all then all[d := Step(backfill, all[d], es[0].event)] else all;
      CurrenciesAreIndependent(backfill, all', es[1..], c);
      if d == c {
        assert Of(es, c)[0] == es[0].event && Of(es, c)[1..] == Of(es[1..], c);
      } else {
        assert Of(es, c) == Of(es[1..], c);
      }
    }
  }

  // ----- the chunk loop -----

  lemma {:induction false} UpsertOfTwo(stored: map<DateText, real>, front: seq<Day>, back: seq<Day>)
    ensures Upsert(stored, front + back) == Upsert(Upsert(stored, front), back)
    decreases |back|
  {
    if back == [] {
      assert front + back == front;
    } else {
      var rest := back[..|back| - 1];
      UpsertOfTwo(stored, front, rest);
      assert (front + back)[..|front + back| - 1] == front + rest;
    }
  }

  /** Rows written when k chunks have been. */
  function Written(rows: seq<Day>, k: nat): nat { if k * UPSERT_CHUNK < |rows| then k * UPSERT_CHUNK else |rows| }

  class FxRateTable {
    var stored: map<DateText, real>

    constructor ()
      ensures stored == map[]
    {
      stored := map[];
    }

    /**
     * `upsertMany`; the statement after `survives` of them throws, and what was written stays: of the rows written, a
     * thousand a statement, each date holds the last, and no other date has changed.
     */
    method UpsertMany(rows: seq<Day>, survives: nat) returns (completed: bool)
      modifies this
      ensures LastRowWins(old(stored), rows[..if survives * 1000 < |rows| then survives * 1000 else |rows|], stored)
      ensures stored == Upsert(old(stored), rows[..Written(rows, survives)])
      ensures completed <==> |rows| <= survives * 1000
    {
      var i, k := 0, 0;
      assert rows[..0] == [];
      while i < |rows|
        invariant 0 <= k <= survives && i == k * UPSERT_CHUNK
        invariant stored == Upsert(old(stored), rows[..Written(rows, k)])
        invariant i < |rows| + UPSERT_CHUNK
        invariant i >= |rows| ==> Written(rows, survives) == |rows|
      {
        if k == survives {
          UpsertKeepsTheLast(old(stored), rows[..Written(rows, survives)]);
          return false;
        }
        var next := if i + UPSERT_CHUNK < |rows| then i + UPSERT_CHUNK else |rows|;
        UpsertOfTwo(old(stored), rows[..i], rows[i..next]);
        assert rows[..i] + rows[i..next] == rows[..next];
        stored := Upsert(stored, rows[i..next]);
        k := k + 1;
        i := i + UPSERT_CHUNK;
      }
      UpsertKeepsTheLast(old(stored), rows[..Written(rows, survives)]);
      return true;
    }
  }

  /** The loop above and the machine's Chunk steps write the same rows. */
  lemma {:induction false} ChunksAreTheLoop(backfill: DateText, s: State, j: nat, k: nat)
    requires j in s.jobs && s.jobs[j].Writing?
    requires k == 0 || (k - 1) * UPSERT_CHUNK < |s.jobs[j].rows|
    ensures Exec(backfill, s, seq(k, i => Chunk(j))).stored == Upsert(s.stored, s.jobs[j].rows[..Written(s.jobs[j].rows, k)])
    decreases k
  {
    var rows := s.jobs[j].rows;
    if k > 0 {
      var es := seq(k, i => Chunk(j));
      var s' := Step(backfill, s, Chunk(j));
      var n := ChunkSize(rows);
      assert es[1..] == seq(k - 1, i => Chunk(j));
      if k == 1 {
        assert es[1..] == [];
      } else {
        ChunksAreTheLoop(backfill, s', j, k - 1);
        UpsertOfTwo(s.stored, rows[..n], rows[n..][..Written(rows[n..], k - 1)]);
        assert rows[..n] + rows[n..][..Written(rows[n..], k - 1)] == rows[..Written(rows, k)];
      }
    } else {
      assert rows[..0] == [];
    }
  }

  // ----- a sync that runs to its end -----

  /** How many statements n rows take; the loop of no rows ends at once. */
  predicate IsChunks(n: nat, k: nat) { 1 <= k && n <= k * 1000 && (k == 1 || (k - 1) * 1000 < n) }

  lemma {:induction false} ChunksFinish(backfill: DateText, s: State, j: nat, k: nat)
    requires j in s.jobs && s.jobs[j].Writing? && IsChunks(|s.jobs[j].rows|, k)
    ensures Exec(backfill, s, seq(k, i => Chunk(j))) == State(s.feed, Upsert(s.stored, s.jobs[j].rows), s.jobs - {j})
    decreases k
  {
    var rows, es := s.jobs[j].rows, seq(k, i => Chunk(j));
    var n := ChunkSize(rows);
    assert es[1..] == seq(k - 1, i => Chunk(j));
    if k == 1 {
      assert es[1..] == [] && rows[..|rows|] == rows;
    } else {
      var s' := Step(backfill, s, Chunk(j));
      ChunksFinish(backfill, s', j, k - 1);
      UpsertOfTwo(s.stored, rows[..n], rows[n..]);
      assert rows[..n] + rows[n..] == rows;
      assert s'.jobs - {j} == s.jobs - {j};
    }
  }

  /** A sync of j from its first query to its last chunk. */
  function SyncOf(j: nat, from: DateText, to: DateText, k: nat): seq<Event> {
    [ReadLast(j, from), Fetch(j, to)] + seq(k, i => Chunk(j))
  }

  lemma SyncRuns(backfill: DateText, s: State, j: nat, from: DateText, to: DateText, k: nat)
    requires j !in s.jobs && ResumesFrom(s.stored, backfill, from) && IsChunks(|Range(s.feed, from, to)|, k)
    ensures Exec(backfill, s, SyncOf(j, from, to, k)) == s.(stored := Upsert(s.stored, Range(s.feed, from, to)))
  {
    var es, rows := SyncOf(j, from, to, k), Range(s.feed, from, to);
    var s1 := s.(jobs := s.jobs[j := Planned(from)]);
    var s2 := s.(jobs := s.jobs[j := Writing(rows)]);
    assert Step(backfill, s, es[0]) == s1 && Step(backfill, s1, es[1..][0]) == s2;
    assert es[1..][1..] == seq(k, i => Chunk(j));
    ChunksFinish(backfill, s2, j, k);
    assert s2.jobs - {j} == s.jobs;
  }

  /** Of an ascending feed exactly the days from `from` to `to` are written, at the published rates. */
  lemma RangeIsWritten(s: State, from: DateText, to: DateText, d: DateText)
    requires Ascending(s.feed)
    ensures
      var after := Upsert(s.stored, Range(s.feed, from, to));
      && (forall i: nat :: i < |s.feed| && s.feed[i].date == d && Le(from, d) && Le(d, to) ==>
            d in after && after[d] == s.feed[i].rate)
      && ((!Le(from, d) || !Le(d, to) || NoRowOf(s.feed, d)) ==>
            (d in after <==> d in s.stored) && (d in s.stored ==> after[d] == s.stored[d]))
  {
    var rows := Range(s.feed, from, to);
    var a, b := RangeIsSlice(s.feed, from, to);
    forall i: nat | i < |s.feed| && s.feed[i].date == d && InRange(s.feed[i], from, to)
      ensures d in Upsert(s.stored, rows) && Upsert(s.stored, rows)[d] == s.feed[i].rate
    {
      assert rows[i - a] == s.feed[i];
      forall k | i - a < k < |rows| ensures rows[k].date != d { SlicedRow(s.feed, a, b, i, k); }
      LastRowIsStored(s.stored, rows, i - a);
    }
    if !Le(from, d) || !Le(d, to) || NoRowOf(s.feed, d) {
      forall k | 0 <= k < |rows| ensures rows[k].date != d {
        assert rows[k] == s.feed[a + k] && InRange(s.feed[a + k], from, to);
      }
      OtherDatesStay(s.stored, rows, d);
    }
  }

  lemma SlicedRow(feed: seq<Day>, a: nat, b: nat, i: nat, k: nat)
    requires Ascending(feed) && a <= i < b <= |feed| && i - a < k < b - a
    ensures feed[a..b][k].date != feed[i].date
  {
    assert feed[a..b][k] == feed[a + k] && Lt(feed[i].date, feed[a + k].date);
  }

  /**
   * A sync that starts over, after a death of its own or none and whatever other syncs are in the middle of, resumes at
   * the newest stored date (at the backfill start when nothing is stored), ends after one statement a thousand rows, and
   * stores exactly the published days from there to its end date, at the published rates.
   */
  lemma SyncCanStartOver(backfill: DateText, s: State, j: nat, from: DateText, to: DateText, k: nat)
    requires Ascending(s.feed) && IsChunks(|Range(s.feed, from, to)|, k)
    requires if s.stored == map[] then from == backfill else from in s.stored && forall e :: e in s.stored ==> Le(e, from)
    ensures
      var s' := Exec(backfill, s, [Fail(j)] + SyncOf(j, from, to, k));
      && s'.feed == s.feed && s'.jobs == s.jobs - {j}
      && (forall i: nat :: i < |s.feed| && Le(from, s.feed[i].date) && Le(s.feed[i].date, to) ==>
            s.feed[i].date in s'.stored && s'.stored[s.feed[i].date] == s.feed[i].rate)
      && (forall d: DateText :: !Le(from, d) || !Le(d, to) || NoRowOf(s.feed, d) ==>
            (d in s'.stored <==> d in s.stored) && (d in s.stored ==> s'.stored[d] == s.stored[d]))
  {
    var es := [Fail(j)] + SyncOf(j, from, to, k);
    assert es[1..] == SyncOf(j, from, to, k);
    var s1 := Step(backfill, s, es[0]);
    SyncRuns(backfill, s1, j, from, to, k);
    forall d: DateText { RangeIsWritten(s1, from, to, d); }
  }

  /** Any ascending history can come to be published. */
  lemma {:induction false} AnyFeedCanAppear(backfill: DateText, s: State, days: seq<Day>)
    requires Ascending(s.feed + days)
    ensures Exec(backfill, s, seq(|days|, i requires 0 <= i < |days| => Published(days[i]))) == s.(feed := s.feed + days)
    decreases |days|
  {
    var es := seq(|days|, i requires 0 <= i < |days| => Published(days[i]));
    if days == [] {
      assert s.feed + days == s.feed;
    } else {
      var all, rest := s.feed + days, days[1..];
      assert s.feed != [] ==> Lt(all[|s.feed| - 1].date, all[|s.feed|].date);
      var s' := Step(backfill, s, es[0]);
      assert s'.feed + rest == all;
      AnyFeedCanAppear(backfill, s', rest);
      assert es[1..] == seq(|rest|, i requires 0 <= i < |rest| => Published(rest[i]));
    }
  }
}

/**
 * N writers of one row under REPEATABLE READ, each inside `withRetry`: read the row, add a delta, write
 * the absolute value back. The state machine has one event per database round trip, so an event sequence
 * is a schedule; an event that is not enabled (a lock is held, the barrier is closed) changes nothing.
 */
module SnapshotWriters {
  import opened Wrappers
  import opened Retry
  import opened Sums

  /** `barrier` is the number of first-attempt arrivals that opens the gate; 0 means there is no gate. */
  datatype Config = Config(start: int, deltas: seq<int>, maxAttempts: int, barrier: nat)

  datatype Phase =
    | Begin                            // nothing read yet in this attempt
    | HasRead(snapshot: nat, seen: int)
    | Arrived(snapshot: nat, seen: int) // first attempt only: waiting at the barrier
    | Writing(snapshot: nat, next: int) // the UPDATE ran: the row is locked, nothing is committed
    | Committed
    | GaveUp

  /** `aborts[i]` is the row version that aborted this writer for the i-th time. */
  datatype Writer = Writer(phase: Phase, attempt: nat, aborts: seq<nat>)

  /** `log[i]` is the writer whose commit made version i + 1 of the row. */
  datatype State = State(value: int, log: seq<nat>, lock: Option<nat>, arrived: nat, writers: seq<Writer>)

  datatype Event =
    | Read(w: nat)
    | Arrive(w: nat)
    | Update(w: nat)
    | Commit(w: nat)
    | Fail(w: nat, failure: Failure)  // the environment kills the attempt: a deadlock, a lost connection

  const COULD_NOT_SERIALIZE := Failure(Nullish, Text(SERIALIZATION_FAILURE))

  function Init(c: Config): State {
    State(c.start, [], None, 0, seq(|c.deltas|, i => Writer(Begin, 1, [])))
  }

  predicate Live(w: Writer) { !w.phase.Committed? && !w.phase.GaveUp? }

  predicate MayUpdate(c: Config, s: State, w: Writer) {
    s.lock == None &&
    if w.attempt == 1 then w.phase.Arrived? && s.arrived >= c.barrier else w.phase.HasRead?
  }

  predicate Enabled(c: Config, s: State, e: Event) {
    e.w < |s.writers| &&
    var w := s.writers[e.w];
    match e
    case Read(_) => w.phase.Begin?
    case Arrive(_) => w.phase.HasRead? && w.attempt == 1
    case Update(_) => MayUpdate(c, s, w)
    case Commit(_) => w.phase.Writing?
    case Fail(_, _) => Live(w)
  }

  /** The attempt is over; `withRetry` decides whether there is another one. */
  function AfterFailure(c: Config, w: Writer, f: Failure): Writer {
    if Replays(f, w.attempt, c.maxAttempts) then w.(phase := Begin, attempt := w.attempt + 1) else w.(phase := GaveUp)
  }

  function SetWriter(s: State, i: nat, w: Writer): State
    requires i < |s.writers|
  {
    s.(writers := s.writers[i := w])
  }

  function Step(c: Config, s: State, e: Event): State
    requires |s.writers| == |c.deltas|
  {
    if !Enabled(c, s, e) then s else
    var w := s.writers[e.w];
    match e
    case Read(i) =>
      SetWriter(s, i, w.(phase := HasRead(|s.log|, s.value)))
    case Arrive(i) =>
      SetWriter(s.(arrived := s.arrived + 1), i, w.(phase := Arrived(w.phase.snapshot, w.phase.seen)))
    case Update(i) =>
      if w.phase.snapshot < |s.log| then
        // The row was committed after this snapshot: first committer wins.
        SetWriter(s, i, AfterFailure(c, w.(aborts := w.aborts + [|s.log|]), COULD_NOT_SERIALIZE))
      else
        SetWriter(s.(lock := Some(i)), i, w.(phase := Writing(w.phase.snapshot, w.phase.seen + c.deltas[i])))
    case Commit(i) =>
      SetWriter(s.(value := w.phase.next, log := s.log + [i], lock := None), i, w.(phase := Committed))
    case Fail(i, f) =>
      SetWriter(s.(lock := if s.lock == Some(i) then None else s.lock), i, AfterFailure(c, w, f))
  }

  function Exec(c: Config, s: State, es: seq<Event>): State
    requires |s.writers| == |c.deltas|
    decreases |es|
  {
    if es == [] then s else Exec(c, Step(c, s, es[0]), es[1..])
  }

  // ----- what does not have to wait, and what a failure does -----

  /** A read never waits, whoever holds the lock: it sees the committed row. */
  lemma ReadsNeverWait(c: Config, s: State, i: nat)
    requires |s.writers| == |c.deltas| && i < |s.writers| && s.writers[i].phase == Begin
    ensures Step(c, s, Read(i)) == s.(writers := s.writers[i := s.writers[i].(phase := HasRead(|s.log|, s.value))])
  {
  }

  /** The writer starts over from its read, as long as it has an attempt left; otherwise it gives up. */
  predicate StartsOver(c: Config, w: Writer, w': Writer) {
    if w.attempt < c.maxAttempts then w'.phase == Begin && w'.attempt == w.attempt + 1
    else w'.phase == GaveUp && w'.attempt == w.attempt
  }

  /** First committer wins: an UPDATE of a row committed since the snapshot is refused, and the row stays as it is. */
  lemma StaleWritesAreRefused(c: Config, s: State, i: nat)
    requires |s.writers| == |c.deltas| && i < |s.writers| && s.lock == None
    requires
      var w := s.writers[i];
      if w.attempt == 1 then w.phase.Arrived? && s.arrived >= c.barrier && w.phase.snapshot < |s.log|
      else w.phase.HasRead? && w.phase.snapshot < |s.log|
    ensures
      var s' := Step(c, s, Update(i));
      && s' == s.(writers := s.writers[i := s'.writers[i]])
      && StartsOver(c, s.writers[i], s'.writers[i])
      && Carries(COULD_NOT_SERIALIZE, "40001")
  {
  }

  /** An attempt may fail at any time: its lock is dropped, and it is repeated exactly when the code is one of the two. */
  lemma FailuresDropTheLock(c: Config, s: State, i: nat, f: Failure)
    requires |s.writers| == |c.deltas| && i < |s.writers|
    requires s.writers[i].phase != Committed && s.writers[i].phase != GaveUp
    ensures
      var s' := Step(c, s, Fail(i, f));
      && s'.value == s.value && s'.log == s.log && s'.lock != Some(i) && (s.lock != Some(i) ==> s'.lock == s.lock)
      && s'.writers == s.writers[i := s'.writers[i]]
      && (Carries(f, "40001") || Carries(f, "40P01") ==> StartsOver(c, s.writers[i], s'.writers[i]))
      && (!Carries(f, "40001") && !Carries(f, "40P01") ==> s'.writers[i].phase == GaveUp)
  {
  }

  // ----- what every step keeps -----

  /** What each writer has contributed to the row: its delta once committed, nothing before or after giving up. */
  function Contributions(c: Config, ws: seq<Writer>): (r: seq<int>)
    requires |ws| == |c.deltas|
  {
    seq(|ws|, i requires 0 <= i < |ws| => if ws[i].phase.Committed? then c.deltas[i] else 0)
  }

  function CommitFlags(ws: seq<Writer>): (r: seq<int>) {
    seq(|ws|, i requires 0 <= i < |ws| => if ws[i].phase.Committed? then 1 else 0)
  }

  ghost predicate Distinct(log: seq<nat>) {
    forall i, j :: 0 <= i < j < |log| ==> log[i] != log[j]
  }

  ghost predicate SnapshotIsSound(c: Config, s: State, i: nat)
    requires i < |s.writers| == |c.deltas|
  {
    match s.writers[i].phase
    case Begin => true
    case HasRead(v, seen) => v <= |s.log| && (v == |s.log| ==> seen == s.value)
    case Arrived(v, seen) => v <= |s.log| && (v == |s.log| ==> seen == s.value)
    case Writing(v, next) => v == |s.log| && next == s.value + c.deltas[i] && s.lock == Some(i)
    case Committed => i in s.log
    case GaveUp => true
  }

  /** The row is the start value plus the deltas of exactly the committed writers. */
  ghost predicate Inv(c: Config, s: State) {
    && |s.writers| == |c.deltas|
    && Distinct(s.log)
    && (forall i :: 0 <= i < |s.log| ==> s.log[i] < |c.deltas| && s.writers[s.log[i]].phase.Committed?)
    && (forall i: nat :: i < |s.writers| ==> SnapshotIsSound(c, s, i))
    && (s.lock.Some? ==> s.lock.value < |s.writers| && s.writers[s.lock.value].phase.Writing?)
    && s.value == c.start + SumSeq(Contributions(c, s.writers))
    && |s.log| == SumSeq(CommitFlags(s.writers))
  }

  lemma CommitKeepsInv(c: Config, s: State, i: nat)
    requires Inv(c, s) && i < |s.writers| && s.writers[i].phase.Writing?
    ensures Inv(c, Step(c, s, Commit(i)))
  {
    var s' := Step(c, s, Commit(i));
    assert SnapshotIsSound(c, s, i);
    assert Contributions(c, s'.writers) == Contributions(c, s.writers)[i := c.deltas[i]];
    SumSeqUpdate(Contributions(c, s.writers), i, c.deltas[i]);
    assert CommitFlags(s'.writers) == CommitFlags(s.writers)[i := 1];
    SumSeqUpdate(CommitFlags(s.writers), i, 1);
    forall j: nat | j < |s'.writers|
      ensures SnapshotIsSound(c, s', j)
    {
      assert SnapshotIsSound(c, s, j);
      if j == i { assert s'.log[|s.log|] == i; }
    }
  }

  lemma StepKeepsInv(c: Config, s: State, e: Event)
    requires Inv(c, s)
    ensures Inv(c, Step(c, s, e))
  {
    if !Enabled(c, s, e) { return; }
    var s' := Step(c, s, e);
    if e.Commit? {
      CommitKeepsInv(c, s, e.w);
    } else {
      assert SnapshotIsSound(c, s, e.w);
      assert Contributions(c, s'.writers) == Contributions(c, s.writers);
      assert CommitFlags(s'.writers) == CommitFlags(s.writers);
      forall j: nat | j < |s'.writers|
        ensures SnapshotIsSound(c, s', j)
      {
        assert SnapshotIsSound(c, s, j);
      }
    }
  }

  lemma {:induction false} InvAlways(c: Config, s: State, es: seq<Event>)
    requires Inv(c, s)
    ensures Inv(c, Exec(c, s, es))
    decreases |es|
  {
    if es != [] {
      StepKeepsInv(c, s, es[0]);
      InvAlways(c, Step(c, s, es[0]), es[1..]);
    }
  }

  lemma InitInv(c: Config)
    ensures Inv(c, Init(c))
  {
    SumSeqOfEqualTerms(Contributions(c, Init(c).writers), 0);
    SumSeqOfEqualTerms(CommitFlags(Init(c).writers), 0);
  }

  /**
   * No lost update: whatever the schedule, the failures and the attempt limit, the row is the start value
   * plus the deltas of the committed writers, each once; a writer that gave up contributed nothing.
   */
  lemma NoLostUpdate(c: Config, es: seq<Event>)
    ensures
      var s := Exec(c, Init(c), es);
      && |s.writers| == |c.deltas|
      && s.value == c.start + SumSeq(Contributions(c, s.writers))
      && |s.log| == SumSeq(CommitFlags(s.writers))
      && (forall i: nat :: i < |c.deltas| ==> (s.writers[i].phase.Committed? <==> i in s.log))
      && Distinct(s.log)
  {
    InitInv(c);
    InvAlways(c, Init(c), es);
    var s := Exec(c, Init(c), es);
    forall i: nat | i < |c.deltas|
      ensures s.writers[i].phase.Committed? <==> i in s.log
    {
      assert SnapshotIsSound(c, s, i);
    }
  }

  // ----- aborts are paid for by other writers' commits -----

  ghost predicate NoFailures(es: seq<Event>) {
    forall i :: 0 <= i < |es| ==> !es[i].Fail?
  }

  ghost predicate Increasing(s: seq<nat>) {
    forall i, j :: 0 <= i < j < |s| ==> s[i] < s[j]
  }

  /** The row version this writer's aborts can reach: its snapshot, or the version just before its own commit. */
  ghost predicate AbortsUpTo(w: Writer, version: nat) {
    forall k :: 0 <= k < |w.aborts| ==> 1 <= w.aborts[k] <= version
  }

  ghost predicate AbortsArePaid(c: Config, s: State, i: nat)
    requires i < |s.writers|
  {
    var w := s.writers[i];
    && Increasing(w.aborts)
    && AbortsUpTo(w, |s.log|)
    && (w.phase.HasRead? || w.phase.Arrived? || w.phase.Writing? ==> AbortsUpTo(w, w.phase.snapshot))
    && (w.phase.Committed? ==> forall p: nat :: p < |s.log| && s.log[p] == i ==> AbortsUpTo(w, p))
    && (if w.phase.GaveUp? then w.attempt == |w.aborts| >= c.maxAttempts else w.attempt == |w.aborts| + 1)
  }

  ghost predicate PaidInv(c: Config, s: State) {
    Inv(c, s) && forall i: nat :: i < |s.writers| ==> AbortsArePaid(c, s, i)
  }

  /** A writer that does not move stays paid: the log only grows, and a commit that is not its own changes nothing for it. */
  lemma OthersStayPaid(c: Config, s: State, s': State, i: nat)
    requires i < |s.writers| == |s'.writers| && s'.writers[i] == s.writers[i] && AbortsArePaid(c, s, i)
    requires s.log <= s'.log && forall p: nat :: |s.log| <= p < |s'.log| ==> s'.log[p] != i
    ensures AbortsArePaid(c, s', i)
  {
    assert forall p: nat :: p < |s.log| ==> s'.log[p] == s.log[p];
  }

  lemma ReadStaysPaid(c: Config, s: State, i: nat)
    requires PaidInv(c, s) && Enabled(c, s, Read(i))
    ensures AbortsArePaid(c, Step(c, s, Read(i)), i)
  {
    assert AbortsArePaid(c, s, i);
  }

  lemma ArriveStaysPaid(c: Config, s: State, i: nat)
    requires PaidInv(c, s) && Enabled(c, s, Arrive(i))
    ensures AbortsArePaid(c, Step(c, s, Arrive(i)), i)
  {
    assert AbortsArePaid(c, s, i);
  }

  /** An abort is paid for by a version newer than the snapshot, hence newer than every abort before it. */
  lemma UpdateStaysPaid(c: Config, s: State, i: nat)
    requires PaidInv(c, s) && Enabled(c, s, Update(i))
    ensures AbortsArePaid(c, Step(c, s, Update(i)), i)
  {
    assert AbortsArePaid(c, s, i) && SnapshotIsSound(c, s, i);
  }

  lemma CommitStaysPaid(c: Config, s: State, i: nat)
    requires PaidInv(c, s) && Enabled(c, s, Commit(i))
    ensures AbortsArePaid(c, Step(c, s, Commit(i)), i)
  {
    assert AbortsArePaid(c, s, i) && SnapshotIsSound(c, s, i);
    assert forall p :: 0 <= p < |s.log| ==> s.log[p] != i;
  }

  lemma StepKeepsPaid(c: Config, s: State, e: Event)
    requires PaidInv(c, s) && !e.Fail?
    ensures PaidInv(c, Step(c, s, e))
  {
    StepKeepsInv(c, s, e);
    if Enabled(c, s, e) {
      match e {
        case Read(i) => ReadStaysPaid(c, s, i);
        case Arrive(i) => ArriveStaysPaid(c, s, i);
        case Update(i) => UpdateStaysPaid(c, s, i);
        case Commit(i) => CommitStaysPaid(c, s, i);
      }
      var s' := Step(c, s, e);
      forall i: nat | i < |s'.writers| && i != e.w ensures AbortsArePaid(c, s', i) { OthersStayPaid(c, s, s', i); }
    }
  }

  lemma {:induction false} PaidAlways(c: Config, s: State, es: seq<Event>)
    requires PaidInv(c, s) && NoFailures(es)
    ensures PaidInv(c, Exec(c, s, es))
    decreases |es|
  {
    if es != [] {
      StepKeepsPaid(c, s, es[0]);
      PaidAlways(c, Step(c, s, es[0]), es[1..]);
    }
  }

  lemma {:induction false} IncreasingIsShort(a: seq<nat>, top: nat)
    requires Increasing(a)
    requires forall k :: 0 <= k < |a| ==> 1 <= a[k] <= top
    ensures |a| <= top
    decreases |a|
  {
    if a != [] {
      var rest := a[..|a| - 1];
      IncreasingIsShort(rest, a[|a| - 1] - 1);
    }
  }

  lemma LogIsShort(c: Config, s: State, i: nat)
    requires Inv(c, s) && i < |s.writers|
    ensures |s.log| <= |c.deltas|
    ensures !s.writers[i].phase.Committed? ==> |s.log| < |c.deltas|
  {
    var flags := CommitFlags(s.writers);
    SumSeqBounded(flags, 0, 1);
    if !s.writers[i].phase.Committed? {
      SumSeqUpdate(flags, i, 1);
      SumSeqBounded(flags[i := 1], 0, 1);
    }
  }

  /** The commit that the k-th abort of writer `i` is charged to. */
  function Charge(s: State, i: nat, k: nat): nat
    requires i < |s.writers| && k < |s.writers[i].aborts| && 1 <= s.writers[i].aborts[k] <= |s.log|
  {
    s.log[s.writers[i].aborts[k] - 1]
  }

  /**
   * In every schedule without environment failures, each abort of a writer is charged to the commit of
   * another writer, no two aborts to the same one; so a writer aborts at most N - 1 times.
   */
  lemma AbortsAreChargedToCommits(c: Config, es: seq<Event>, i: nat)
    requires NoFailures(es) && i < |c.deltas|
    ensures
      var s := Exec(c, Init(c), es);
      && i < |s.writers|
      && var w := s.writers[i];
      && |w.aborts| <= |c.deltas| - 1
      && (forall k: nat :: k < |w.aborts| ==>
            1 <= w.aborts[k] <= |s.log| && i != Charge(s, i, k) < |s.writers| && s.writers[Charge(s, i, k)].phase.Committed?)
      && (forall k: nat, l: nat :: k < l < |w.aborts| ==> Charge(s, i, k) != Charge(s, i, l))
  {
    InitInv(c);
    PaidAlways(c, Init(c), es);
    var s := Exec(c, Init(c), es);
    var w := s.writers[i];
    assert AbortsArePaid(c, s, i) && SnapshotIsSound(c, s, i);
    LogIsShort(c, s, i);
    if w.phase.Committed? {
      var p: nat :| p < |s.log| && s.log[p] == i;
      IncreasingIsShort(w.aborts, p);
      assert forall k: nat :: k < |w.aborts| ==> w.aborts[k] <= p;
    } else {
      IncreasingIsShort(w.aborts, |s.log|);
    }
  }

  /** With at least N attempts allowed nobody ever gives up. */
  lemma EnoughAttemptsNeverGiveUp(c: Config, es: seq<Event>, i: nat)
    requires NoFailures(es) && i < |c.deltas| <= c.maxAttempts
    ensures
      var s := Exec(c, Init(c), es);
      i < |s.writers| && !s.writers[i].phase.GaveUp? && s.writers[i].attempt <= |c.deltas|
  {
    AbortsAreChargedToCommits(c, es, i);
    InitInv(c);
    PaidAlways(c, Init(c), es);
    assert AbortsArePaid(c, Exec(c, Init(c), es), i);
  }

  // ----- every schedule ends, and can only end with everybody finished -----

  function PhaseRank(p: Phase): nat {
    match p
    case Begin => 4
    case HasRead(_, _) => 3
    case Arrived(_, _) => 2
    case Writing(_, _) => 1
    case Committed => 0
    case GaveUp => 0
  }

  function Ranks(c: Config, ws: seq<Writer>): seq<int> {
    seq(|ws|, i requires 0 <= i < |ws| =>
      if Live(ws[i]) then 4 * (Max(1, c.maxAttempts) - ws[i].attempt) + PhaseRank(ws[i].phase) else 0)
  }

  ghost predicate AttemptsInRange(c: Config, s: State) {
    && |s.writers| == |c.deltas|
    && forall i :: 0 <= i < |s.writers| ==> 1 <= s.writers[i].attempt <= Max(1, c.maxAttempts)
  }

  lemma EnabledStepsLowerTheRank(c: Config, s: State, e: Event)
    requires AttemptsInRange(c, s) && Enabled(c, s, e)
    ensures AttemptsInRange(c, Step(c, s, e))
    ensures SumSeq(Ranks(c, Step(c, s, e).writers)) < SumSeq(Ranks(c, s.writers))
  {
    var s' := Step(c, s, e);
    var before, after := Ranks(c, s.writers), Ranks(c, s'.writers);
    assert after == before[e.w := after[e.w]];
    SumSeqUpdate(before, e.w, after[e.w]);
  }

  /** How many events of the schedule actually did something. */
  function Effective(c: Config, s: State, es: seq<Event>): nat
    requires |s.writers| == |c.deltas|
    decreases |es|
  {
    if es == [] then 0
    else (if Enabled(c, s, es[0]) then 1 else 0) + Effective(c, Step(c, s, es[0]), es[1..])
  }

  lemma {:induction false} EffectiveIsBounded(c: Config, s: State, es: seq<Event>)
    requires AttemptsInRange(c, s)
    ensures Effective(c, s, es) <= SumSeq(Ranks(c, s.writers))
    decreases |es|
  {
    if es == [] {
      SumSeqBounded(Ranks(c, s.writers), 0, 4 * Max(1, c.maxAttempts));
    } else {
      if Enabled(c, s, es[0]) {
        EnabledStepsLowerTheRank(c, s, es[0]);
      }
      EffectiveIsBounded(c, Step(c, s, es[0]), es[1..]);
    }
  }

  /** No livelock, failures included: N writers with M attempts each take at most 4 * M * N effective steps. */
  lemma EveryScheduleIsFinite(c: Config, es: seq<Event>)
    ensures Effective(c, Init(c), es) <= |c.deltas| * (4 * Max(1, c.maxAttempts))
  {
    EffectiveIsBounded(c, Init(c), es);
    SumSeqBounded(Ranks(c, Init(c).writers), 0, 4 * Max(1, c.maxAttempts));
  }
}

/**
 * Whole schedules of the N-writer protocol: they cannot get stuck, they add up, the barrier forces the
 * conflicts the demonstration wants to see, and N attempts are exactly what N writers need.
 */
module SnapshotSchedules {
  import opened Wrappers
  import opened Retry
  import opened Sums
  import opened SnapshotWriters

  predicate PastBarrier(w: Writer) {
    w.attempt != 1 || (!w.phase.Begin? && !w.phase.HasRead?)
  }

  function BarrierFlags(ws: seq<Writer>): seq<int> {
    seq(|ws|, i requires 0 <= i < |ws| => if PastBarrier(ws[i]) then 1 else 0)
  }

  ghost predicate BarrierInv(c: Config, s: State) {
    && PaidInv(c, s)
    && s.arrived == SumSeq(BarrierFlags(s.writers))
    && (forall i :: 0 <= i < |s.writers| ==> (s.writers[i].phase.Arrived? ==> s.writers[i].attempt == 1))
    && (forall i :: 0 <= i < |s.writers| ==> s.writers[i].attempt >= 1)
  }

  lemma StepKeepsBarrier(c: Config, s: State, e: Event)
    requires BarrierInv(c, s) && !e.Fail?
    ensures BarrierInv(c, Step(c, s, e))
  {
    StepKeepsPaid(c, s, e);
    if Enabled(c, s, e) {
      var s' := Step(c, s, e);
      var before, after := BarrierFlags(s.writers), BarrierFlags(s'.writers);
      assert after == before[e.w := after[e.w]];
      SumSeqUpdate(before, e.w, after[e.w]);
    }
  }

  lemma {:induction false} BarrierAlways(c: Config, s: State, es: seq<Event>)
    requires BarrierInv(c, s) && NoFailures(es)
    ensures BarrierInv(c, Exec(c, s, es))
    decreases |es|
  {
    if es != [] {
      StepKeepsBarrier(c, s, es[0]);
      BarrierAlways(c, Step(c, s, es[0]), es[1..]);
    }
  }

  lemma InitBarrier(c: Config)
    ensures BarrierInv(c, Init(c))
  {
    InitInv(c);
    SumSeqOfEqualTerms(BarrierFlags(Init(c).writers), 0);
  }

  /** If the gate is still closed, somebody is still on the way to it. */
  lemma SomebodyIsOnTheWay(c: Config, s: State) returns (i: nat)
    requires BarrierInv(c, s) && s.arrived < |s.writers|
    ensures i < |s.writers| && !PastBarrier(s.writers[i])
  {
    if forall j: nat :: j < |s.writers| ==> PastBarrier(s.writers[j]) {
      SumSeqOfEqualTerms(BarrierFlags(s.writers), 1);
      assert false;
    }
    i :| i < |s.writers| && !PastBarrier(s.writers[i]);
  }

  /** Some writer can move: the lock holder, or anybody not blocked at the gate. */
  lemma SomeEventIsEnabled(c: Config, s: State, i: nat) returns (e: Event)
    requires BarrierInv(c, s) && c.barrier <= |c.deltas|
    requires i < |s.writers| && Live(s.writers[i])
    ensures !e.Fail? && Enabled(c, s, e)
  {
    assert SnapshotIsSound(c, s, i);
    var j := i;
    if s.lock == None && s.writers[i].phase.Arrived? && s.arrived < c.barrier {
      j := SomebodyIsOnTheWay(c, s);
    }
    if s.lock.Some? {
      e := Commit(s.lock.value);
    } else if s.writers[j].phase.Begin? {
      e := Read(j);
    } else if s.writers[j].phase.HasRead? && s.writers[j].attempt == 1 {
      e := Arrive(j);
    } else {
      e := Update(j);
    }
  }

  /** Nothing is left that could happen without the environment failing. */
  ghost predicate Exhausted(c: Config, s: State) {
    forall e: Event :: Enabled(c, s, e) ==> e.Fail?
  }

  ghost predicate AllCommitted(s: State) {
    forall i :: 0 <= i < |s.writers| ==> s.writers[i].phase.Committed?
  }

  /**
   * The promise of the demonstration, for any N, any deltas and any schedule: with at least N attempts per
   * writer, when nothing more can happen every writer has committed once and the row is the start plus all deltas.
   */
  lemma EveryScheduleAddsUp(c: Config, es: seq<Event>)
    requires NoFailures(es) && c.maxAttempts >= |c.deltas| && c.barrier <= |c.deltas|
    requires Exhausted(c, Exec(c, Init(c), es))
    ensures
      var s := Exec(c, Init(c), es);
      && |s.writers| == |c.deltas|
      && AllCommitted(s)
      && s.value == c.start + SumSeq(c.deltas)
      && |s.log| == |c.deltas|
  {
    var s := Exec(c, Init(c), es);
    InitBarrier(c);
    BarrierAlways(c, Init(c), es);
    forall i: nat | i < |s.writers|
      ensures s.writers[i].phase.Committed?
    {
      EnoughAttemptsNeverGiveUp(c, es, i);
      if Live(s.writers[i]) {
        var e := SomeEventIsEnabled(c, s, i);
        assert false;
      }
    }
    assert Contributions(c, s.writers) == c.deltas;
    SumSeqOfEqualTerms(CommitFlags(s.writers), 1);
  }

  /** The printed check of the demonstration: start + WRITERS * DELTA. */
  lemma EqualDeltasAddUp(c: Config, es: seq<Event>, delta: int)
    requires NoFailures(es) && c.maxAttempts >= |c.deltas| && c.barrier <= |c.deltas|
    requires Exhausted(c, Exec(c, Init(c), es))
    requires forall i :: 0 <= i < |c.deltas| ==> c.deltas[i] == delta
    ensures Exec(c, Init(c), es).value == c.start + |c.deltas| * delta
  {
    EveryScheduleAddsUp(c, es);
    SumSeqOfEqualTerms(c.deltas, delta);
  }

  // ----- the barrier makes the conflicts certain -----

  /** With a full barrier every first attempt reads version 0, and only version 0's successor can be a first attempt. */
  ghost predicate FirstReadsSeeTheStart(c: Config, s: State) {
    && BarrierInv(c, s)
    && (forall i :: 0 <= i < |s.writers| ==>
          var w := s.writers[i];
          w.attempt == 1 ==>
            match w.phase
            case Begin => |s.log| == 0 && s.lock == None
            case HasRead(v, _) => |s.log| == 0 && s.lock == None && v == 0
            case Arrived(v, _) => v == 0
            case Writing(v, _) => v == 0
            case Committed => |s.log| > 0 && s.log[0] == i
            case GaveUp => true)
  }

  lemma StepKeepsFirstReads(c: Config, s: State, e: Event)
    requires FirstReadsSeeTheStart(c, s) && !e.Fail? && c.barrier == |c.deltas|
    ensures FirstReadsSeeTheStart(c, Step(c, s, e))
  {
    StepKeepsBarrier(c, s, e);
    if Enabled(c, s, e) {
      assert SnapshotIsSound(c, s, e.w);
      if e.Update? || e.Commit? {
        EverybodyArrivedBeforeAWrite(c, s, e);
      }
    }
  }

  /** Before the gate opens nobody holds the row, so there is nothing to commit and nothing may be written. */
  lemma ClosedGateBlocksWrites(c: Config, s: State, e: Event)
    requires BarrierInv(c, s) && s.arrived < c.barrier && |s.log| == 0 && s.lock == None
    ensures Enabled(c, s, e) ==> !e.Update? && !e.Commit?
  {
    if e.w < |s.writers| {
      assert SnapshotIsSound(c, s, e.w) && AbortsArePaid(c, s, e.w);
      var w := s.writers[e.w];
      assert AbortsUpTo(w, 0);
      IncreasingIsShort(w.aborts, 0);
    }
  }

  /** A write can only start once the gate is open, that is, once nobody is on the way to it any more. */
  lemma EverybodyArrivedBeforeAWrite(c: Config, s: State, e: Event)
    requires FirstReadsSeeTheStart(c, s) && Enabled(c, s, e) && (e.Update? || e.Commit?)
    requires c.barrier == |c.deltas|
    ensures forall i :: 0 <= i < |s.writers| ==> PastBarrier(s.writers[i])
  {
    forall j: nat | j < |s.writers|
      ensures PastBarrier(s.writers[j])
    {
      var flags := BarrierFlags(s.writers);
      SumSeqUpdate(flags, j, 1);
      SumSeqBounded(flags[j := 1], 0, 1);
      if s.arrived < c.barrier && |s.log| == 0 && s.lock == None {
        ClosedGateBlocksWrites(c, s, e);
      }
    }
  }

  lemma {:induction false} FirstReadsAlways(c: Config, s: State, es: seq<Event>)
    requires FirstReadsSeeTheStart(c, s) && NoFailures(es) && c.barrier == |c.deltas|
    ensures FirstReadsSeeTheStart(c, Exec(c, s, es))
    decreases |es|
  {
    if es != [] {
      StepKeepsFirstReads(c, s, es[0]);
      FirstReadsAlways(c, Step(c, s, es[0]), es[1..]);
    }
  }

  function AbortCounts(ws: seq<Writer>): seq<int> {
    seq(|ws|, i requires 0 <= i < |ws| => |ws[i].aborts|)
  }

  /**
   * The barrier makes N - 1 serialization failures certain rather than lucky: when all have committed, every
   * writer but the one that committed first has been aborted at least once.
   */
  lemma BarrierForcesConflicts(c: Config, es: seq<Event>)
    requires NoFailures(es) && c.barrier == |c.deltas| > 0
    requires AllCommitted(Exec(c, Init(c), es))
    ensures
      var s := Exec(c, Init(c), es);
      && |s.log| > 0
      && (forall i :: 0 <= i < |s.writers| && i != s.log[0] ==> |s.writers[i].aborts| >= 1)
      && SumSeq(AbortCounts(s.writers)) >= |c.deltas| - 1
  {
    var s := Exec(c, Init(c), es);
    InitBarrier(c);
    FirstReadsAlways(c, Init(c), es);
    SumSeqOfEqualTerms(CommitFlags(s.writers), 1);
    var first := s.log[0];
    forall i: nat | i < |s.writers| && i != first
      ensures |s.writers[i].aborts| >= 1
    {
      assert AbortsArePaid(c, s, i);
    }
    var counts := AbortCounts(s.writers);
    SumSeqUpdate(counts, first, counts[first] + 1);
    AtLeastOneEach(counts[first := counts[first] + 1]);
  }

  lemma {:induction false} AtLeastOneEach(s: seq<int>)
    requires forall i :: 0 <= i < |s| ==> s[i] >= 1
    ensures SumSeq(s) >= |s|
  {
    if s != [] {
      AtLeastOneEach(s[1..]);
    }
  }

  // ----- N attempts are also necessary -----

  lemma {:induction false} ExecAppend(c: Config, s: State, a: seq<Event>, b: seq<Event>)
    requires |s.writers| == |c.deltas|
    ensures |Exec(c, s, a).writers| == |c.deltas|
    ensures Exec(c, s, a + b) == Exec(c, Exec(c, s, a), b)
    decreases |a|
  {
    if a == [] {
      assert a + b == b;
    } else {
      assert (a + b)[1..] == a[1..] + b;
      ExecAppend(c, Step(c, s, a[0]), a[1..], b);
    }
  }

  lemma ExecOne(c: Config, s: State, e: Event)
    requires |s.writers| == |c.deltas|
    ensures Exec(c, s, [e]) == Step(c, s, e)
  {
    assert [e][1..] == [];
  }

  lemma ExecTwo(c: Config, s: State, a: Event, b: Event)
    requires |s.writers| == |c.deltas|
    ensures |Step(c, s, a).writers| == |c.deltas|
    ensures Exec(c, s, [a, b]) == Step(c, Step(c, s, a), b)
  {
    assert [a, b][1..] == [b];
    ExecOne(c, Step(c, s, a), b);
  }

  lemma ExecThree(c: Config, s: State, e1: Event, e2: Event, e3: Event)
    requires |s.writers| == |c.deltas|
    ensures |Step(c, Step(c, s, e1), e2).writers| == |c.deltas|
    ensures Exec(c, s, [e1, e2, e3]) == Step(c, Step(c, Step(c, s, e1), e2), e3)
  {
    ExecTwo(c, s, e1, e2);
    ExecOne(c, Step(c, Step(c, s, e1), e2), e3);
    ExecAppend(c, s, [e1, e2], [e3]);
    assert [e1, e2] + [e3] == [e1, e2, e3];
  }

  /** The first n writers read and come to the barrier. */
  function Gathering(n: nat): seq<Event> {
    if n == 0 then [] else Gathering(n - 1) + [Read(n - 1), Arrive(n - 1)]
  }

  function InLine(start: int): Writer { Writer(Arrived(0, start), 1, []) }

  ghost predicate Gathered(c: Config, s: State, n: nat) {
    && |s.writers| == |c.deltas| && s.lock == None && s.log == [] && s.value == c.start && s.arrived == n
    && forall j :: 0 <= j < |s.writers| ==> s.writers[j] == if j < n then InLine(c.start) else Writer(Begin, 1, [])
  }

  lemma {:induction false} GatheringGathers(c: Config, n: nat)
    requires n <= |c.deltas|
    ensures NoFailures(Gathering(n)) && Gathered(c, Exec(c, Init(c), Gathering(n)), n)
  {
    if n > 0 {
      GatheringGathers(c, n - 1);
      var s := Exec(c, Init(c), Gathering(n - 1));
      ExecAppend(c, Init(c), Gathering(n - 1), [Read(n - 1), Arrive(n - 1)]);
      ExecTwo(c, s, Read(n - 1), Arrive(n - 1));
    }
  }

  /** Writer k overtakes writer 0 between the read and the write of writer 0; its own first snapshot is stale by then. */
  function Overtake(k: nat): seq<Event> {
    (if k == 1 then [] else [Update(k), Read(k), Read(0)]) + [Update(k), Commit(k), Update(0)]
  }

  function Overtakes(n: nat, k: nat): seq<Event> {
    if k == 0 then Gathering(n) else Overtakes(n, k - 1) + Overtake(k)
  }

  /** After k overtakes writer 0 is at its attempt k + 1, and everybody after k is still in line with snapshot 0. */
  ghost predicate Starving(c: Config, s: State, k: nat) {
    && |s.writers| == |c.deltas| >= 2
    && s.lock == None && |s.log| == k && s.arrived >= c.barrier
    && s.writers[0].attempt == k + 1 && (if k == 0 then s.writers[0] == InLine(c.start) else s.writers[0].phase.Begin?)
    && forall j :: k < j < |s.writers| ==> s.writers[j] == InLine(c.start)
  }

  /** Everybody is ready to write version k of the row, k - 1 being the last one committed. */
  ghost predicate Poised(c: Config, s: State, k: nat) {
    && |s.writers| == |c.deltas| && 1 <= k < |c.deltas|
    && s.lock == None && |s.log| == k - 1 && s.arrived >= c.barrier
    && s.writers[0].attempt == k && ReadyAt(s, s.writers[0], k - 1) && ReadyAt(s, s.writers[k], k - 1)
    && forall j :: k < j < |s.writers| ==> s.writers[j] == InLine(c.start)
  }

  predicate ReadyAt(s: State, w: Writer, version: nat) {
    (if w.attempt == 1 then w.phase.Arrived? else w.phase.HasRead?) && w.phase.snapshot == version
  }

  ghost predicate Beaten(c: Config, s: State, k: nat) {
    if k < c.maxAttempts then Starving(c, s, k) else |s.writers| == |c.deltas| > 0 && s.writers[0].phase.GaveUp?
  }

  lemma PoisedOvertake(c: Config, s: State, k: nat)
    requires Poised(c, s, k)
    ensures Beaten(c, Exec(c, s, [Update(k), Commit(k), Update(0)]), k)
  {
    ExecThree(c, s, Update(k), Commit(k), Update(0));
    var s1 := Step(c, s, Update(k));
    assert s1.writers[k].phase.Writing? && s1.lock == Some(k);
    var s2 := Step(c, s1, Commit(k));
    assert s2.lock == None && |s2.log| == k && s2.writers[0] == s.writers[0];
  }

  /** The stale first attempt of writer k is aborted; then both read the newest version. */
  lemma BothReadAgain(c: Config, s: State, k: nat)
    requires 2 <= k < |c.deltas| && Starving(c, s, k - 1) && c.maxAttempts >= 2
    ensures Poised(c, Exec(c, s, [Update(k), Read(k), Read(0)]), k)
  {
    ExecThree(c, s, Update(k), Read(k), Read(0));
    var s1 := Step(c, s, Update(k));
    assert s1.writers[k] == Writer(Begin, 2, [k - 1]);
    var s2 := Step(c, s1, Read(k));
    assert s2.writers[k].phase == HasRead(k - 1, s.value);
  }

  lemma OneMoreOvertake(c: Config, s: State, k: nat)
    requires 1 <= k < |c.deltas| && Starving(c, s, k - 1) && k <= Max(1, c.maxAttempts)
    ensures Beaten(c, Exec(c, s, Overtake(k)), k)
  {
    var closing := [Update(k), Commit(k), Update(0)];
    if k == 1 {
      assert Overtake(k) == closing;
      PoisedOvertake(c, s, k);
    } else {
      BothReadAgain(c, s, k);
      ExecAppend(c, s, [Update(k), Read(k), Read(0)], closing);
      PoisedOvertake(c, Exec(c, s, [Update(k), Read(k), Read(0)]), k);
    }
  }

  /** With any barrier that N writers can open, k overtaking writers cost writer 0 k attempts. */
  lemma {:induction false} OvertakesStarve(c: Config, k: nat)
    requires c.barrier <= |c.deltas| && |c.deltas| >= 2 && k < |c.deltas| && k <= Max(1, c.maxAttempts)
    ensures NoFailures(Overtakes(|c.deltas|, k))
    ensures k < Max(1, c.maxAttempts) ==> Starving(c, Exec(c, Init(c), Overtakes(|c.deltas|, k)), k)
    ensures k > 0 ==> Beaten(c, Exec(c, Init(c), Overtakes(|c.deltas|, k)), k)
  {
    var n := |c.deltas|;
    if k == 0 {
      GatheringGathers(c, n);
    } else {
      OvertakesStarve(c, k - 1);
      ExecAppend(c, Init(c), Overtakes(n, k - 1), Overtake(k));
      OneMoreOvertake(c, Exec(c, Init(c), Overtakes(n, k - 1)), k);
    }
  }

  // ----- a barrier that N writers cannot open -----

  ghost predicate NobodyWrites(c: Config, s: State) { BarrierInv(c, s) && |s.log| == 0 && s.lock == None }

  lemma {:induction false} ClosedForever(c: Config, s: State, es: seq<Event>)
    requires NobodyWrites(c, s) && NoFailures(es) && c.barrier > |c.deltas|
    ensures NobodyWrites(c, Exec(c, s, es))
    decreases |es|
  {
    if es != [] {
      SumSeqBounded(BarrierFlags(s.writers), 0, 1);
      ClosedGateBlocksWrites(c, s, es[0]);
      StepKeepsBarrier(c, s, es[0]);
      ClosedForever(c, Step(c, s, es[0]), es[1..]);
    }
  }

  lemma ShortOfConflicts(c: Config, es: seq<Event>, i: nat)
    requires NoFailures(es) && i < |c.deltas| && (|c.deltas| <= 1 || c.barrier > |c.deltas|)
    ensures StillIn(c, es, i)
  {
    var s := Exec(c, Init(c), es);
    InitBarrier(c);
    BarrierAlways(c, Init(c), es);
    assert AbortsArePaid(c, s, i);
    if c.barrier > |c.deltas| {
      ClosedForever(c, Init(c), es);
      IncreasingIsShort(s.writers[i].aborts, 0);
    } else {
      AbortsAreChargedToCommits(c, es, i);
    }
  }

  /**
   * How many attempts N writers need, exactly, for every N and every barrier: no failure-free schedule ever makes a
   * writer give up if and only if `maxAttempts` is at least N, or nobody can conflict at all (a single writer, or a
   * barrier that N writers never open).
   */
  lemma AttemptsNeededExactly(c: Config)
    ensures
      (forall es: seq<Event>, i: nat :: NoFailures(es) && i < |c.deltas| ==> StillIn(c, es, i))
      <==> c.maxAttempts >= |c.deltas| || |c.deltas| <= 1 || c.barrier > |c.deltas|
  {
    if c.maxAttempts >= |c.deltas| || |c.deltas| <= 1 || c.barrier > |c.deltas| {
      forall es: seq<Event>, i: nat | NoFailures(es) && i < |c.deltas|
        ensures StillIn(c, es, i)
      {
        if c.maxAttempts >= |c.deltas| { EnoughAttemptsNeverGiveUp(c, es, i); } else { ShortOfConflicts(c, es, i); }
      }
    } else {
      var k := Max(1, c.maxAttempts);
      OvertakesStarve(c, k);
      assert !StillIn(c, Overtakes(|c.deltas|, k), 0);
    }
  }

  ghost predicate StillIn(c: Config, es: seq<Event>, i: nat) {
    var s := Exec(c, Init(c), es);
    i < |s.writers| && !s.writers[i].phase.GaveUp?
  }
}

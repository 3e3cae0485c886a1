/**
 * How long workers poll and what is left when they stop. Closed runs, with no crash and no late enqueue, end with every
 * job done; with crashes, what is left undone was in the hands of a worker that crashed.
 */
module JobDrain {
  import opened Sums
  import opened JobWorkers

  // ----- the pool drains -----

  /** A closed run: nobody crashes and nothing is enqueued after the start. */
  ghost predicate Closed(es: seq<Event>) {
    forall i :: 0 <= i < |es| ==> !es[i].Crash? && !es[i].Enqueue?
  }

  /** Once somebody has polled in vain, every job left is in somebody's hands. */
  ghost predicate DrainInv(m: int, p: Pool) {
    && ExactlyOnce(p)
    && (forall i :: 0 <= i < |p.workers| ==> !p.workers[i].phase.Crashed?)
    && (forall i :: 0 <= i < |p.workers| && p.workers[i].idlePolls > 0 ==> Claimable(p) == {})
    && (forall i :: 0 <= i < |p.workers| ==> IdleCountsSound(m, p.workers[i]))
  }

  ghost predicate IdleCountsSound(m: int, w: Worker) {
    && w.idlePolls <= |w.jobIds| * (Patience(m) - 1) + w.consecutiveIdle
    && (if w.phase.Returned? then w.consecutiveIdle == Patience(m) && w.idlePolls > 0 else w.consecutiveIdle < Patience(m))
  }

  function Held(w: Worker): set<JobId> {
    if w.phase.Handling? then {w.phase.job} else {}
  }

  /** Only the worker that moves gains or loses a lock. */
  lemma LocksMoveWithTheWorker(ws: seq<Worker>, i: nat, w: Worker)
    requires i < |ws|
    ensures Held(w) <= LockedIds(ws[i := w]) <= LockedIds(ws) + Held(w)
    ensures LockedIds(ws) <= LockedIds(ws[i := w]) + Held(ws[i])
  {
    var ws' := ws[i := w];
    assert ws'[i] == w;
    forall id | id in LockedIds(ws') ensures id in LockedIds(ws) + Held(w) {
      var j :| 0 <= j < |ws'| && ws'[j].phase == Handling(id);
      assert j != i ==> ws[j].phase == Handling(id);
    }
    forall id | id in LockedIds(ws) ensures id in LockedIds(ws') + Held(ws[i]) {
      var j :| 0 <= j < |ws| && ws[j].phase == Handling(id);
      assert j != i ==> ws'[j].phase == Handling(id);
    }
  }

  /** Claims take jobs out of the claimable set, and no step of a closed run puts one in. */
  lemma ClaimableShrinks(m: int, p: Pool, e: Event)
    requires ExactlyOnce(p) && !e.Crash? && !e.Enqueue?
    ensures Claimable(Step(m, p, e)) <= Claimable(p)
    ensures e.Poll? && Enabled(p, e) && Claimable(p) != {} ==> Claimable(Step(m, p, e)) == Claimable(p) - {Oldest(p)}
  {
    if Enabled(p, e) {
      var p' := Step(m, p, e);
      if e.Commit? { assert LockedBy(p, p.workers[e.w].phase.job, e.w); }
      assert p'.workers == p.workers[e.w := p'.workers[e.w]];
      LocksMoveWithTheWorker(p.workers, e.w, p'.workers[e.w]);
    }
  }

  lemma RecordKeepsIdleCounts(m: int, w: Worker, id: JobId)
    requires IdleCountsSound(m, w) && w.phase.Finished?
    ensures IdleCountsSound(m, w.(phase := Polling, jobIds := w.jobIds + [id], consecutiveIdle := 0))
  {
    var k := Patience(m) - 1;
    assert (|w.jobIds| + 1) * k == |w.jobIds| * k + k;
  }

  lemma StepKeepsDrain(m: int, p: Pool, e: Event)
    requires DrainInv(m, p) && !e.Crash? && !e.Enqueue?
    ensures DrainInv(m, Step(m, p, e))
  {
    ExactlyOnceAlways(m, p, [e]);
    assert Exec(m, p, [e]) == Step(m, p, e) by { assert [e][1..] == []; }
    ClaimableShrinks(m, p, e);
    StepKeepsIdleCounts(m, p, e);
  }

  lemma {:induction false} DrainAlways(m: int, p: Pool, es: seq<Event>)
    requires DrainInv(m, p) && Closed(es)
    ensures DrainInv(m, Exec(m, p, es))
    decreases |es|
  {
    if es != [] {
      StepKeepsDrain(m, p, es[0]);
      DrainAlways(m, Step(m, p, es[0]), es[1..]);
    }
  }

  /** No crash and no late enqueue: when all workers of a non-empty pool have returned, every job is done. */
  lemma PoolDrains(m: int, start: Pool, es: seq<Event>)
    requires Initial(start) && Closed(es) && start.workers != []
    requires forall i :: 0 <= i < |Exec(m, start, es).workers| ==> Exec(m, start, es).workers[i].phase.Returned?
    ensures
      var p := Exec(m, start, es);
      && p.jobs.Keys == start.jobs.Keys
      && (forall id :: id in p.jobs ==> p.jobs[id].status == Done && p.jobs[id].processed == 1)
  {
    assert ExactlyOnce(start);
    DrainAlways(m, start, es);
    KeysStay(m, start, es);
    var p := Exec(m, start, es);
    assert IdleCountsSound(m, p.workers[0]);
    forall id | id in p.jobs
      ensures p.jobs[id].status == Done && p.jobs[id].processed == 1
    {
      assert JobRowSound(p, id);
      assert id !in Claimable(p);
    }
  }

  lemma {:induction false} KeysStay(m: int, p: Pool, es: seq<Event>)
    requires Closed(es)
    ensures Exec(m, p, es).jobs.Keys == p.jobs.Keys && |Exec(m, p, es).workers| == |p.workers|
    decreases |es|
  {
    if es != [] {
      KeysStay(m, Step(m, p, es[0]), es[1..]);
    }
  }

  // ----- idle polls -----

  lemma StepKeepsIdleCounts(m: int, p: Pool, e: Event)
    requires forall i :: 0 <= i < |p.workers| ==> IdleCountsSound(m, p.workers[i])
    ensures |Step(m, p, e).workers| == |p.workers|
    ensures forall i :: 0 <= i < |p.workers| ==> IdleCountsSound(m, Step(m, p, e).workers[i])
  {
    if Enabled(p, e) && e.Record? {
      RecordKeepsIdleCounts(m, p.workers[e.w], p.workers[e.w].phase.job);
    }
  }

  lemma {:induction false} IdleCountsAlways(m: int, p: Pool, es: seq<Event>)
    requires forall i :: 0 <= i < |p.workers| ==> IdleCountsSound(m, p.workers[i])
    ensures |Exec(m, p, es).workers| == |p.workers|
    ensures forall i :: 0 <= i < |p.workers| ==> IdleCountsSound(m, Exec(m, p, es).workers[i])
    decreases |es|
  {
    if es != [] {
      StepKeepsIdleCounts(m, p, es[0]);
      IdleCountsAlways(m, Step(m, p, es[0]), es[1..]);
    }
  }

  /** In any run, with crashes and late enqueues: a worker that noted c jobs has polled in vain at most c * (m - 1) + m times. */
  lemma IdlePollsAreBounded(m: int, start: Pool, es: seq<Event>, i: nat)
    requires Initial(start) && i < |start.workers|
    ensures
      var p := Exec(m, start, es);
      i < |p.workers| && p.workers[i].idlePolls <= |p.workers[i].jobIds| * (Patience(m) - 1) + Patience(m)
  {
    IdleCountsAlways(m, start, es);
    assert IdleCountsSound(m, Exec(m, start, es).workers[i]);
  }

  /** All empty polls so far came in a row, and a worker that has polled in vain holds nothing. */
  ghost predicate IdleInOneGo(w: Worker) {
    w.idlePolls == w.consecutiveIdle && (w.phase.Handling? || w.phase.Finished? ==> w.idlePolls == 0)
  }

  lemma StepKeepsOneGo(m: int, p: Pool, e: Event)
    requires DrainInv(m, p) && !e.Crash? && !e.Enqueue?
    requires forall i :: 0 <= i < |p.workers| ==> IdleInOneGo(p.workers[i])
    ensures forall i :: 0 <= i < |Step(m, p, e).workers| ==> IdleInOneGo(Step(m, p, e).workers[i])
  {
  }

  lemma {:induction false} OneGoAlways(m: int, p: Pool, es: seq<Event>)
    requires DrainInv(m, p) && Closed(es)
    requires forall i :: 0 <= i < |p.workers| ==> IdleInOneGo(p.workers[i])
    ensures forall i :: 0 <= i < |Exec(m, p, es).workers| ==> IdleInOneGo(Exec(m, p, es).workers[i])
    decreases |es|
  {
    if es != [] {
      StepKeepsOneGo(m, p, es[0]);
      StepKeepsDrain(m, p, es[0]);
      OneGoAlways(m, Step(m, p, es[0]), es[1..]);
    }
  }

  /** In a closed run the first empty poll is followed by empty polls only, so there are at most m of them in all. */
  lemma ClosedRunsPollInVainOnlyAtTheEnd(m: int, start: Pool, es: seq<Event>, i: nat)
    requires Initial(start) && Closed(es) && i < |start.workers|
    ensures
      var p := Exec(m, start, es);
      && i < |p.workers| && p.workers[i].idlePolls == p.workers[i].consecutiveIdle <= Patience(m)
      && (p.workers[i].phase.Returned? ==> p.workers[i].idlePolls == Patience(m))
  {
    assert ExactlyOnce(start);
    DrainAlways(m, start, es);
    KeysStay(m, start, es);
    OneGoAlways(m, start, es);
    var p := Exec(m, start, es);
    assert IdleCountsSound(m, p.workers[i]) && IdleInOneGo(p.workers[i]);
  }

  // ----- what crashes leave undone -----

  ghost predicate NothingEnqueued(es: seq<Event>) { forall i :: 0 <= i < |es| ==> !es[i].Enqueue? }

  /** The last worker to hold the job crashed with it in hand, and nobody has claimed it since. */
  ghost predicate LastHolderCrashed(m: int, start: Pool, es: seq<Event>, id: JobId, k: nat) {
    && k < |es| && es[k].Crash? && LockedBy(Exec(m, start, es[..k]), id, es[k].w)
    && forall l: nat :: k < l <= |es| ==> id !in LockedIds(Exec(m, start, es[..l]).workers)
  }

  lemma {:induction false} ExecGrows(m: int, p: Pool, es: seq<Event>, e: Event)
    ensures Exec(m, p, es + [e]) == Step(m, Exec(m, p, es), e)
    decreases |es|
  {
    if es == [] {
      assert (es + [e])[1..] == [];
    } else {
      assert (es + [e])[1..] == es[1..] + [e];
      ExecGrows(m, Step(m, p, es[0]), es[1..], e);
    }
  }

  ghost predicate NobodyIdleYet(p: Pool) { forall i :: 0 <= i < |p.workers| ==> p.workers[i].idlePolls == 0 }

  ghost predicate Abandoned(m: int, start: Pool, es: seq<Event>, id: JobId) {
    exists k: nat :: LastHolderCrashed(m, start, es, id, k)
  }

  /** A job that stays free through one more event stays abandoned. */
  lemma StaysAbandoned(m: int, start: Pool, es: seq<Event>, e: Event, id: JobId)
    requires Abandoned(m, start, es, id) && id !in LockedIds(Exec(m, start, es + [e]).workers)
    ensures Abandoned(m, start, es + [e], id)
  {
    var k: nat :| LastHolderCrashed(m, start, es, id, k);
    var all := es + [e];
    assert all[..k] == es[..k];
    forall l: nat | k < l <= |all| ensures id !in LockedIds(Exec(m, start, all[..l]).workers) {
      if l <= |es| { assert all[..l] == es[..l]; } else { assert all[..l] == all; }
    }
    assert LastHolderCrashed(m, start, all, id, k);
  }

  /** A pending job leaves a worker's hands only by a crash. */
  lemma BecomesAbandoned(m: int, start: Pool, es: seq<Event>, e: Event, id: JobId)
    requires ExactlyOnce(Exec(m, start, es)) && id in LockedIds(Exec(m, start, es).workers)
    requires id in Claimable(Exec(m, start, es + [e]))
    ensures Abandoned(m, start, es + [e], id)
  {
    ExecGrows(m, start, es, e);
    var p, all := Exec(m, start, es), es + [e];
    var w :| 0 <= w < |p.workers| && p.workers[w].phase == Handling(id);
    assert LockedBy(p, id, w);
    assert e == Crash(w) by { OnlyItsHolderLetsGo(m, p, e, id, w); }
    assert all[..|es|] == es && all[..|all|] == all;
    assert LastHolderCrashed(m, start, all, id, |es|);
  }

  lemma OnlyItsHolderLetsGo(m: int, p: Pool, e: Event, id: JobId, w: nat)
    requires ExactlyOnce(p) && LockedBy(p, id, w) && id in Claimable(Step(m, p, e))
    ensures e == Crash(w)
  {
    var p' := Step(m, p, e);
    assert !LockedBy(p', id, w);
    assert id in p.jobs;
  }

  /** A claimable job was there before, free or in somebody's hands. */
  lemma ClaimableBefore(m: int, p: Pool, e: Event, id: JobId)
    requires ExactlyOnce(p) && !e.Enqueue? && id in Claimable(Step(m, p, e))
    ensures id in Claimable(p) || id in LockedIds(p.workers)
    ensures id in Claimable(p) && NobodyIdleYet(p) ==> NobodyIdleYet(Step(m, p, e))
  {
  }

  lemma {:induction false} FreeJobsAreAbandoned(m: int, start: Pool, es: seq<Event>, id: JobId)
    requires Initial(start) && NothingEnqueued(es) && id in Claimable(Exec(m, start, es))
    ensures NobodyIdleYet(Exec(m, start, es)) || Abandoned(m, start, es, id)
    decreases |es|
  {
    if es != [] {
      var front, e := es[..|es| - 1], es[|es| - 1];
      assert es == front + [e];
      ExecGrows(m, start, front, e);
      assert ExactlyOnce(start);
      ExactlyOnceAlways(m, start, front);
      var p := Exec(m, start, front);
      ClaimableBefore(m, p, e, id);
      if id in LockedIds(p.workers) {
        BecomesAbandoned(m, start, front, e, id);
      } else {
        FreeJobsAreAbandoned(m, start, front, id);
        if Abandoned(m, start, front, id) { StaysAbandoned(m, start, front, e, id); }
      }
    }
  }

  /**
   * With crashes anywhere and no late enqueue: when every worker has returned or crashed and at least one has returned,
   * each job that is not done was last held by a worker that crashed with it, and nobody has claimed it since.
   */
  lemma UndoneJobsWereCrashedWith(m: int, start: Pool, es: seq<Event>, id: JobId)
    requires Initial(start) && NothingEnqueued(es) && id in Exec(m, start, es).jobs
    requires forall i :: 0 <= i < |Exec(m, start, es).workers| ==>
      Exec(m, start, es).workers[i].phase.Returned? || Exec(m, start, es).workers[i].phase.Crashed?
    requires exists i :: 0 <= i < |Exec(m, start, es).workers| && Exec(m, start, es).workers[i].phase.Returned?
    ensures Exec(m, start, es).jobs[id].status == Done || Abandoned(m, start, es, id)
  {
    var p := Exec(m, start, es);
    IdleCountsAlways(m, start, es);
    var i :| 0 <= i < |p.workers| && p.workers[i].phase.Returned?;
    assert IdleCountsSound(m, p.workers[i]);
    if p.jobs[id].status == Pending {
      assert id in Claimable(p);
      FreeJobsAreAbandoned(m, start, es, id);
    }
  }

  // ----- a closed run ends -----

  function WorkerRank(m: int, w: Worker): int {
    var k := Patience(m);
    match w.phase
    case Polling => k - w.consecutiveIdle
    case Handling(_) => k + 2 + k - w.consecutiveIdle
    case Finished(_) => k + 1 + k - w.consecutiveIdle
    case Returned => 0
    case Crashed => 0
  }

  function WorkerRanks(m: int, ws: seq<Worker>): seq<int> {
    seq(|ws|, i requires 0 <= i < |ws| => WorkerRank(m, ws[i]))
  }

  function Rank(m: int, p: Pool): int {
    (Patience(m) + 3) * |Claimable(p)| + SumSeq(WorkerRanks(m, p.workers))
  }

  /** The mover's share: a claim costs it k + 2, every other step gives at least 1 back. */
  lemma MoverRank(m: int, p: Pool, e: Event)
    requires DrainInv(m, p) && !e.Crash? && !e.Enqueue? && Enabled(p, e)
    ensures
      var p' := Step(m, p, e);
      && |p'.workers| == |p.workers|
      && p'.workers == p.workers[e.w := p'.workers[e.w]]
      && WorkerRank(m, p'.workers[e.w]) <= WorkerRank(m, p.workers[e.w]) +
           if e.Poll? && Claimable(p) != {} then Patience(m) + 2 else -1
  {
    assert IdleCountsSound(m, p.workers[e.w]);
    if e.Commit? { assert LockedBy(p, p.workers[e.w].phase.job, e.w); }
  }

  lemma {:induction false} ScaledBy(k: nat, a: nat, b: nat)
    requires a <= b
    ensures k * a <= k * b
    ensures a < b ==> k * a <= k * b - k
    decreases b
  {
    if a < b {
      ScaledBy(k, a, b - 1);
      assert k * b == k * (b - 1) + k;
    }
  }

  lemma StepLowersRank(m: int, p: Pool, e: Event)
    requires DrainInv(m, p) && !e.Crash? && !e.Enqueue? && Enabled(p, e)
    ensures Rank(m, Step(m, p, e)) < Rank(m, p)
  {
    var p' := Step(m, p, e);
    MoverRank(m, p, e);
    var before, after := WorkerRanks(m, p.workers), WorkerRanks(m, p'.workers);
    assert after == before[e.w := WorkerRank(m, p'.workers[e.w])];
    SumSeqUpdate(before, e.w, after[e.w]);
    var free, free' := Claimable(p), Claimable(p');
    assert free' <= free && (e.Poll? && free != {} ==> |free'| < |free|) by {
      ClaimableShrinks(m, p, e);
    }
    SmallerSet(free', free);
    ScaledBy(Patience(m) + 3, |free'|, |free|);
  }

  lemma SmallerSet<T>(a: set<T>, b: set<T>)
    requires a <= b
    ensures |a| <= |b|
  {
    assert b == a + (b - a);
  }

  /** How many events of the schedule actually did something. */
  ghost function Effective(m: int, p: Pool, es: seq<Event>): nat
    decreases |es|
  {
    if es == [] then 0
    else (if Enabled(p, es[0]) then 1 else 0) + Effective(m, Step(m, p, es[0]), es[1..])
  }

  lemma {:induction false} EffectiveIsBounded(m: int, p: Pool, es: seq<Event>)
    requires DrainInv(m, p) && Closed(es)
    ensures Effective(m, p, es) <= Rank(m, p)
    decreases |es|
  {
    if es == [] {
      assert forall i :: 0 <= i < |p.workers| ==> IdleCountsSound(m, p.workers[i]);
      NonNegativeSum(WorkerRanks(m, p.workers));
    } else {
      StepKeepsDrain(m, p, es[0]);
      if Enabled(p, es[0]) {
        StepLowersRank(m, p, es[0]);
      }
      EffectiveIsBounded(m, Step(m, p, es[0]), es[1..]);
    }
  }

  lemma {:induction false} NonNegativeSum(s: seq<int>)
    requires forall i :: 0 <= i < |s| ==> s[i] >= 0
    ensures SumSeq(s) >= 0
  {
    if s != [] {
      NonNegativeSum(s[1..]);
    }
  }

  /** No livelock: a closed run takes at most (m + 3) * jobs + m * workers effective steps. */
  lemma ClosedRunsAreFinite(m: int, start: Pool, es: seq<Event>)
    requires Initial(start) && Closed(es)
    ensures Effective(m, start, es) <= (Patience(m) + 3) * |start.jobs| + |start.workers| * Patience(m)
  {
    assert ExactlyOnce(start);
    EffectiveIsBounded(m, start, es);
    SmallerSet(Claimable(start), start.jobs.Keys);
    ScaledBy(Patience(m) + 3, |Claimable(start)|, |start.jobs|);
    SumSeqOfEqualTerms(WorkerRanks(m, start.workers), Patience(m));
  }

  /** No stuck pool: when nothing more can happen in a closed run, every worker has returned and every job is done. */
  lemma ClosedRunsEndDrained(m: int, start: Pool, es: seq<Event>)
    requires Initial(start) && Closed(es) && start.workers != []
    requires forall e :: Enabled(Exec(m, start, es), e) ==> e.Crash? || e.Enqueue?
    ensures
      var p := Exec(m, start, es);
      && (forall i :: 0 <= i < |p.workers| ==> p.workers[i].phase.Returned?)
      && (forall id :: id in p.jobs ==> p.jobs[id].status == Done && p.jobs[id].processed == 1)
  {
    assert ExactlyOnce(start);
    var p := Exec(m, start, es);
    DrainAlways(m, start, es);
    forall i: nat | i < |p.workers| ensures p.workers[i].phase.Returned? {
      assert !Enabled(p, Poll(i)) && !Enabled(p, Commit(i)) && !Enabled(p, Record(i));
    }
    PoolDrains(m, start, es);
  }
}

/**
 * The worker pool on `FOR UPDATE SKIP LOCKED`. One event per database round trip: a claim locks the oldest free
 * pending job, a commit marks it done and drops the lock, the worker then notes the job id in its own list.
 * A crash may come anywhere; the lock goes with the connection. An event that is not enabled changes nothing.
 */
module JobWorkers {
  import opened Wrappers

  type JobId = nat

  datatype Status = Pending | Done

  datatype Job = Job(createdAt: int, status: Status, processed: nat, workerId: Option<nat>)

  datatype Phase =
    | Polling
    | Handling(job: JobId)   // the row is locked, the handler runs, the transaction is open
    | Finished(job: JobId)   // the transaction committed, `jobIds.push` is still to come
    | Returned
    | Crashed

  datatype Worker = Worker(phase: Phase, jobIds: seq<JobId>, idlePolls: nat, consecutiveIdle: nat)

  datatype Pool = Pool(jobs: map<JobId, Job>, workers: seq<Worker>)

  datatype Event =
    | Poll(w: nat)
    | Commit(w: nat)
    | Record(w: nat)
    | Crash(w: nat)
    | Enqueue(id: JobId, createdAt: int)

  predicate LockedBy(p: Pool, id: JobId, w: nat) {
    w < |p.workers| && p.workers[w].phase == Handling(id)
  }

  /** Rows another transaction holds; `SKIP LOCKED` does not see them. */
  function LockedIds(ws: seq<Worker>): (r: set<JobId>)
    ensures forall id :: id in r <==> exists w :: 0 <= w < |ws| && ws[w].phase == Handling(id)
  {
    set w | 0 <= w < |ws| && ws[w].phase.Handling? :: ws[w].phase.job
  }

  function Claimable(p: Pool): (r: set<JobId>) {
    set id | id in p.jobs && p.jobs[id].status == Pending && id !in LockedIds(p.workers)
  }

  /** `ORDER BY created_at, id`. */
  predicate Before(p: Pool, a: JobId, b: JobId)
    requires a in p.jobs && b in p.jobs
  {
    p.jobs[a].createdAt < p.jobs[b].createdAt || (p.jobs[a].createdAt == p.jobs[b].createdAt && a <= b)
  }

  ghost predicate IsOldest(p: Pool, ids: set<JobId>, id: JobId)
    requires ids <= p.jobs.Keys
  {
    id in ids && forall other :: other in ids ==> Before(p, id, other)
  }

  lemma {:induction false} OldestExists(p: Pool, ids: set<JobId>)
    requires ids <= p.jobs.Keys && ids != {}
    ensures exists id :: IsOldest(p, ids, id)
    decreases |ids|
  {
    var x :| x in ids;
    var rest := ids - {x};
    if rest == {} {
      assert ids == {x};
      assert IsOldest(p, ids, x);
    } else {
      OldestExists(p, rest);
      var y :| IsOldest(p, rest, y);
      var best := if Before(p, x, y) then x else y;
      forall other | other in ids
        ensures Before(p, best, other)
      {
        if other != x { assert other in rest && Before(p, y, other); }
      }
      assert IsOldest(p, ids, best);
    }
  }

  /** The row `LIMIT 1` returns. */
  ghost function Oldest(p: Pool): (id: JobId)
    requires Claimable(p) != {}
    ensures IsOldest(p, Claimable(p), id)
  {
    OldestExists(p, Claimable(p));
    var id :| IsOldest(p, Claimable(p), id);
    id
  }

  /** The order is total, so the claim query has one answer. */
  lemma OldestIsUnique(p: Pool, ids: set<JobId>, a: JobId, b: JobId)
    requires ids <= p.jobs.Keys && IsOldest(p, ids, a) && IsOldest(p, ids, b)
    ensures a == b
  {
    assert Before(p, a, b) && Before(p, b, a);
  }

  predicate Enabled(p: Pool, e: Event) {
    match e
    case Poll(w) => w < |p.workers| && p.workers[w].phase.Polling?
    case Commit(w) => w < |p.workers| && p.workers[w].phase.Handling?
    case Record(w) => w < |p.workers| && p.workers[w].phase.Finished?
    case Crash(w) => w < |p.workers| && !p.workers[w].phase.Returned? && !p.workers[w].phase.Crashed?
    case Enqueue(id, _) => id !in p.jobs
  }

  function SetWorker(p: Pool, i: nat, w: Worker): Pool
    requires i < |p.workers|
  {
    p.(workers := p.workers[i := w])
  }

  /** One more empty poll; the worker stops once enough of them came in a row. */
  function AfterEmptyPoll(w: Worker, maxIdlePolls: int): Worker {
    w.(idlePolls := w.idlePolls + 1,
       consecutiveIdle := w.consecutiveIdle + 1,
       phase := if w.consecutiveIdle + 1 >= maxIdlePolls then Returned else Polling)
  }

  ghost function Step(maxIdlePolls: int, p: Pool, e: Event): Pool {
    if !Enabled(p, e) then p else
    match e
    case Poll(i) =>
      if Claimable(p) == {} then SetWorker(p, i, AfterEmptyPoll(p.workers[i], maxIdlePolls))
      else SetWorker(p, i, p.workers[i].(phase := Handling(Oldest(p))))
    case Commit(i) =>
      var id := p.workers[i].phase.job;
      if id !in p.jobs then p else
      var job := p.jobs[id];
      SetWorker(p.(jobs := p.jobs[id := job.(status := Done, processed := job.processed + 1, workerId := Some(i))]),
                i, p.workers[i].(phase := Finished(id)))
    case Record(i) =>
      var w := p.workers[i];
      SetWorker(p, i, w.(phase := Polling, jobIds := w.jobIds + [w.phase.job], consecutiveIdle := 0))
    case Crash(i) =>
      SetWorker(p, i, p.workers[i].(phase := Crashed))
    case Enqueue(id, createdAt) =>
      p.(jobs := p.jobs[id := Job(createdAt, Pending, 0, None)])
  }

  ghost function Exec(maxIdlePolls: int, p: Pool, es: seq<Event>): Pool
    decreases |es|
  {
    if es == [] then p else Exec(maxIdlePolls, Step(maxIdlePolls, p, es[0]), es[1..])
  }

  const FRESH_WORKER := Worker(Polling, [], 0, 0)

  /** A queue of untouched jobs and a set of workers that have not started. */
  ghost predicate Initial(p: Pool) {
    && (forall id :: id in p.jobs ==> p.jobs[id].status == Pending && p.jobs[id].processed == 0 && p.jobs[id].workerId == None)
    && (forall w :: 0 <= w < |p.workers| ==> p.workers[w] == FRESH_WORKER)
  }

  // ----- exactly once, crashes included -----

  ghost predicate JobRowSound(p: Pool, id: JobId)
    requires id in p.jobs
  {
    var job := p.jobs[id];
    match job.status
    case Pending => job.processed == 0 && job.workerId == None
    case Done => job.processed == 1 && job.workerId.Some? && job.workerId.value < |p.workers|
  }

  /** The list of a worker names exactly the rows committed under its name, each once, apart from the one it is noting now. */
  ghost predicate ListSound(p: Pool, i: nat)
    requires i < |p.workers|
  {
    var w := p.workers[i];
    && (forall k, l :: 0 <= k < l < |w.jobIds| ==> w.jobIds[k] != w.jobIds[l])
    && (forall k :: 0 <= k < |w.jobIds| ==> Credited(p, w.jobIds[k], i))
    && (w.phase.Finished? ==> Credited(p, w.phase.job, i) && w.phase.job !in w.jobIds)
    && (!w.phase.Crashed? ==> forall id :: Credited(p, id, i) ==> id in w.jobIds || w.phase == Finished(id))
  }

  predicate Credited(p: Pool, id: JobId, i: nat) {
    id in p.jobs && p.jobs[id].status == Done && p.jobs[id].workerId == Some(i)
  }

  ghost predicate ExactlyOnce(p: Pool) {
    && (forall id :: id in p.jobs ==> JobRowSound(p, id))
    && (forall i: nat :: i < |p.workers| ==> ListSound(p, i))
    && (forall i: nat, id :: LockedBy(p, id, i) ==> id in p.jobs && p.jobs[id].status == Pending)
    && (forall i: nat, j: nat, id :: LockedBy(p, id, i) && LockedBy(p, id, j) ==> i == j)
  }

  lemma PollKeepsExactlyOnce(m: int, p: Pool, i: nat)
    requires ExactlyOnce(p)
    ensures ExactlyOnce(Step(m, p, Poll(i)))
  {
    var p' := Step(m, p, Poll(i));
    if Enabled(p, Poll(i)) {
      forall j: nat | j < |p'.workers| ensures ListSound(p', j) { assert ListSound(p, j); }
      forall id | id in p'.jobs ensures JobRowSound(p', id) { assert JobRowSound(p, id); }
      forall j: nat, k: nat, id | LockedBy(p', id, j) && LockedBy(p', id, k)
        ensures j == k
      {
        if j != i && k != i { assert LockedBy(p, id, j) && LockedBy(p, id, k); }
      }
      forall j: nat, id | LockedBy(p', id, j)
        ensures id in p'.jobs && p'.jobs[id].status == Pending
      {
        if j != i { assert LockedBy(p, id, j); }
      }
    }
  }

  lemma CommitKeepsExactlyOnce(m: int, p: Pool, i: nat)
    requires ExactlyOnce(p)
    ensures ExactlyOnce(Step(m, p, Commit(i)))
  {
    var p' := Step(m, p, Commit(i));
    if Enabled(p, Commit(i)) {
      var id0 := p.workers[i].phase.job;
      assert LockedBy(p, id0, i);
      forall j: nat | j < |p'.workers| ensures ListSound(p', j) {
        assert ListSound(p, j);
        assert forall id :: id != id0 ==> (Credited(p', id, j) <==> Credited(p, id, j));
        assert !Credited(p, id0, j);
      }
      forall id | id in p'.jobs ensures JobRowSound(p', id) { assert JobRowSound(p, id); }
      forall j: nat, k: nat, id | LockedBy(p', id, j) && LockedBy(p', id, k)
        ensures j == k
      {
        assert LockedBy(p, id, j) && LockedBy(p, id, k);
      }
      forall j: nat, id | LockedBy(p', id, j)
        ensures id in p'.jobs && p'.jobs[id].status == Pending
      {
        assert LockedBy(p, id, j);
      }
    }
  }

  lemma OtherStepsKeepExactlyOnce(m: int, p: Pool, e: Event)
    requires ExactlyOnce(p) && (e.Record? || e.Crash? || e.Enqueue?)
    ensures ExactlyOnce(Step(m, p, e))
  {
    var p' := Step(m, p, e);
    if Enabled(p, e) {
      forall j: nat | j < |p'.workers| ensures ListSound(p', j) {
        assert ListSound(p, j);
        assert forall id :: Credited(p', id, j) <==> Credited(p, id, j);
      }
      forall id | id in p'.jobs ensures JobRowSound(p', id) {
        if id in p.jobs { assert JobRowSound(p, id); }
      }
      forall j: nat, id | LockedBy(p', id, j) ensures LockedBy(p, id, j) {}
    }
  }

  lemma {:induction false} ExactlyOnceAlways(m: int, p: Pool, es: seq<Event>)
    requires ExactlyOnce(p)
    ensures ExactlyOnce(Exec(m, p, es))
    decreases |es|
  {
    if es != [] {
      match es[0] {
        case Poll(i) => PollKeepsExactlyOnce(m, p, i);
        case Commit(i) => CommitKeepsExactlyOnce(m, p, i);
        case _ => OtherStepsKeepExactlyOnce(m, p, es[0]);
      }
      ExactlyOnceAlways(m, Step(m, p, es[0]), es[1..]);
    }
  }

  /**
   * Exactly once, for every schedule with crashes and enqueues anywhere: a job has at most one lock holder; it is
   * processed once when done and never otherwise; the list of a live worker is the set of rows committed under its
   * name (up to the one it is about to note), so no two lists share a job and no list repeats one.
   */
  lemma EveryJobExactlyOnce(m: int, start: Pool, es: seq<Event>)
    requires Initial(start)
    ensures
      var p := Exec(m, start, es);
      && (forall i: nat, j: nat, id :: LockedBy(p, id, i) && LockedBy(p, id, j) ==> i == j)
      && (forall id :: id in p.jobs ==> p.jobs[id].processed == if p.jobs[id].status == Done then 1 else 0)
      && (forall i: nat, id :: i < |p.workers| && id in p.workers[i].jobIds ==> Credited(p, id, i))
      && (forall i: nat, id :: i < |p.workers| && Credited(p, id, i) && p.workers[i].phase.Returned? ==> id in p.workers[i].jobIds)
      && (forall i: nat, j: nat, id :: i < j < |p.workers| && id in p.workers[i].jobIds ==> id !in p.workers[j].jobIds)
      && (forall i: nat, k, l :: i < |p.workers| && 0 <= k < l < |p.workers[i].jobIds| ==>
            p.workers[i].jobIds[k] != p.workers[i].jobIds[l])
  {
    assert ExactlyOnce(start);
    ExactlyOnceAlways(m, start, es);
    var p := Exec(m, start, es);
    forall id | id in p.jobs ensures p.jobs[id].processed == if p.jobs[id].status == Done then 1 else 0 {
      assert JobRowSound(p, id);
    }
    forall i: nat, id | i < |p.workers| && id in p.workers[i].jobIds ensures Credited(p, id, i) {
      assert ListSound(p, i);
    }
    forall i: nat, id | i < |p.workers| && Credited(p, id, i) && p.workers[i].phase.Returned?
      ensures id in p.workers[i].jobIds
    {
      assert ListSound(p, i);
    }
    forall i: nat, k, l | i < |p.workers| && 0 <= k < l < |p.workers[i].jobIds|
      ensures p.workers[i].jobIds[k] != p.workers[i].jobIds[l]
    {
      assert ListSound(p, i);
    }
  }

  // ----- the loop of one worker -----

  /** The number of empty polls in a row that makes a worker stop. */
  function Patience(maxIdlePolls: int): nat { if maxIdlePolls < 1 then 1 else maxIdlePolls }

  /** The job ids among the replies of the claim transactions, in order. */
  function ClaimsIn(replies: seq<Option<JobId>>): seq<JobId> {
    if replies == [] then []
    else
      var last := replies[|replies| - 1];
      ClaimsIn(replies[..|replies| - 1]) + if last.Some? then [last.value] else []
  }

  /** The last k replies were all empty. */
  ghost predicate EndsIdle(replies: seq<Option<JobId>>, k: nat) {
    k <= |replies| && forall i :: |replies| - k <= i < |replies| ==> replies[i] == None
  }

  /**
   * What the loop has made of these replies: the claims in order, all other polls idle, and it has returned exactly when
   * the last m replies were all empty, which they never were before.
   */
  ghost predicate IsRunOf(replies: seq<Option<JobId>>, maxIdlePolls: int, returned: bool, jobIds: seq<JobId>, idlePolls: nat) {
    && jobIds == ClaimsIn(replies)
    && idlePolls + |jobIds| == |replies|
    && (returned <==> EndsIdle(replies, Patience(maxIdlePolls)))
    && forall k :: 0 <= k < |replies| ==> !EndsIdle(replies[..k], Patience(maxIdlePolls))
  }

  /**
   * `runWorker` against an arbitrary database: `replies[i]` is what its i-th claim transaction returned. It stops at
   * the first moment the last m replies were all empty; it reports the claimed jobs in order and counts the rest.
   */
  method RunWorker(replies: seq<Option<JobId>>, maxIdlePolls: int)
    returns (returned: bool, polls: nat, jobIds: seq<JobId>, idlePolls: nat)
    ensures polls <= |replies| && (!returned ==> polls == |replies|)
    ensures IsRunOf(replies[..polls], maxIdlePolls, returned, jobIds, idlePolls)
  {
    jobIds, idlePolls, polls := [], 0, 0;
    var consecutiveIdle := 0;
    while polls < |replies|
      invariant polls <= |replies|
      invariant jobIds == ClaimsIn(replies[..polls])
      invariant idlePolls + |jobIds| == polls
      invariant consecutiveIdle < Patience(maxIdlePolls) && consecutiveIdle <= polls
      invariant forall i :: polls - consecutiveIdle <= i < polls ==> replies[i] == None
      invariant consecutiveIdle < polls ==> replies[polls - consecutiveIdle - 1].Some?
      invariant forall k :: 0 <= k <= polls ==> !EndsIdle(replies[..k], Patience(maxIdlePolls))
    {
      var claimed := replies[polls];
      assert replies[..polls + 1][..polls] == replies[..polls];
      polls := polls + 1;
      if claimed.Some? {
        jobIds := jobIds + [claimed.value];
        consecutiveIdle := 0;
        assert replies[..polls][polls - 1].Some?;
        continue;
      }
      idlePolls := idlePolls + 1;
      consecutiveIdle := consecutiveIdle + 1;
      if consecutiveIdle >= maxIdlePolls {
        assert forall k :: 0 <= k < polls ==> replies[..polls][..k] == replies[..k];
        return true, polls, jobIds, idlePolls;
      }
      assert consecutiveIdle < polls ==> replies[..polls][polls - consecutiveIdle - 1].Some?;
    }
    returned := false;
    assert replies[..polls] == replies;
    assert forall k :: 0 <= k < polls ==> replies[..polls][..k] == replies[..k];
  }
}

/**
 * The workers of the pool are the loop: in any run, with crashes and late enqueues, what a worker has noted, how often
 * it polled in vain and whether it has returned is what `runWorker` makes of the replies its own polls got.
 */
module JobReplies {
  import opened Wrappers
  import opened JobWorkers

  // ----- one poll, one crash -----

  predicate Held(p: Pool, id: JobId) { exists w :: 0 <= w < |p.workers| && p.workers[w].phase == Handling(id) }

  /** Pending, and in nobody's hands. */
  predicate Free(p: Pool, id: JobId) { id in p.jobs && p.jobs[id].status == Pending && !Held(p, id) }

  /** A poll takes the free job that is first by (created_at, id), or comes back empty because there is none. */
  lemma PollTakesTheOldestFree(m: int, p: Pool, i: nat)
    requires i < |p.workers| && p.workers[i].phase == Polling
    ensures
      var p' := Step(m, p, Poll(i));
      && p'.jobs == p.jobs && |p'.workers| == |p.workers|
      && (forall j :: 0 <= j < |p.workers| && j != i ==> p'.workers[j] == p.workers[j])
      && p'.workers[i].jobIds == p.workers[i].jobIds
      && if exists id :: Free(p, id) then
           && p'.workers[i].phase.Handling? && Free(p, p'.workers[i].phase.job)
           && (forall id :: Free(p, id) && id != p'.workers[i].phase.job ==>
                 var a, b := p.jobs[p'.workers[i].phase.job].createdAt, p.jobs[id].createdAt;
                 a < b || (a == b && p'.workers[i].phase.job < id))
         else p'.workers[i].phase == Polling || p'.workers[i].phase == Returned
  {
    assert forall id :: id in LockedIds(p.workers) <==> Held(p, id);
    assert forall id :: id in Claimable(p) <==> Free(p, id);
  }

  /** A crash frees the job the worker had in hand, and the worker never does anything again. */
  lemma CrashFreesTheJob(m: int, p: Pool, i: nat, future: seq<Event>)
    requires ExactlyOnce(p) && i < |p.workers| && !p.workers[i].phase.Returned?
    ensures
      var p' := Step(m, p, Crash(i));
      && p'.jobs == p.jobs
      && (p.workers[i].phase.Handling? ==> Free(p', p.workers[i].phase.job))
      && i < |p'.workers| && p'.workers[i] == p.workers[i].(phase := Crashed)
      && i < |Exec(m, p', future).workers| && Exec(m, p', future).workers[i] == p'.workers[i]
  {
    var p' := Step(m, p, Crash(i));
    if p.workers[i].phase.Handling? {
      var id := p.workers[i].phase.job;
      assert LockedBy(p, id, i);
      if Held(p', id) {
        var w :| 0 <= w < |p'.workers| && p'.workers[w].phase == Handling(id);
        assert LockedBy(p, id, w);
        assert false;
      }
    }
    CrashedStays(m, p', i, future);
  }

  lemma {:induction false} CrashedStays(m: int, p: Pool, i: nat, es: seq<Event>)
    requires i < |p.workers| && p.workers[i].phase.Crashed?
    ensures i < |Exec(m, p, es).workers| && Exec(m, p, es).workers[i] == p.workers[i]
    decreases |es|
  {
    if es != [] {
      CrashedStays(m, Step(m, p, es[0]), i, es[1..]);
    }
  }

  /** A job enqueued at any time is free for the next poll, and nothing else changes. */
  lemma EnqueuedJobsAreFree(m: int, p: Pool, id: JobId, createdAt: int)
    requires ExactlyOnce(p) && id !in p.jobs
    ensures
      var p' := Step(m, p, Enqueue(id, createdAt));
      && p'.workers == p.workers && p'.jobs == p.jobs[id := p'.jobs[id]]
      && Free(p', id) && p'.jobs[id].createdAt == createdAt
  {
    if Held(p, id) {
      var w :| 0 <= w < |p.workers| && p.workers[w].phase == Handling(id);
      assert LockedBy(p, id, w);
    }
  }

  // ----- the replies a worker got -----

  /** What this event tells worker i: the job its poll came back with, or nothing. */
  ghost function Told(m: int, p: Pool, e: Event, i: nat): seq<Option<JobId>>
    requires i < |p.workers|
  {
    if e != Poll(i) || !p.workers[i].phase.Polling? then []
    else if Step(m, p, e).workers[i].phase.Handling? then [Some(Step(m, p, e).workers[i].phase.job)]
    else [None]
  }

  /** The replies to all polls of worker i, in order. */
  ghost function Replies(m: int, p: Pool, es: seq<Event>, i: nat): seq<Option<JobId>>
    requires i < |p.workers|
    decreases |es|
  {
    if es == [] then [] else Told(m, p, es[0], i) + Replies(m, Step(m, p, es[0]), es[1..], i)
  }

  predicate Holding(w: Worker) { w.phase.Handling? || w.phase.Finished? }

  /** Worker w after these replies; a job in hand is the last reply, and not yet noted. */
  ghost predicate Reflects(m: int, w: Worker, r: seq<Option<JobId>>) {
    && (Holding(w) ==> r != [] && r[|r| - 1] == Some(w.phase.job))
    && (Holding(w) ==> IsRunOf(r[..|r| - 1], m, false, w.jobIds, w.idlePolls))
    && (w.phase.Polling? ==> IsRunOf(r, m, false, w.jobIds, w.idlePolls))
    && (w.phase.Returned? ==> IsRunOf(r, m, true, w.jobIds, w.idlePolls))
    && (w.phase.Crashed? ==>
          || IsRunOf(r, m, false, w.jobIds, w.idlePolls)
          || (r != [] && r[|r| - 1].Some? && IsRunOf(r[..|r| - 1], m, false, w.jobIds, w.idlePolls)))
  }

  /** While it polls, a worker counts the empty replies since the last claim. */
  ghost predicate CountsIdle(w: Worker, r: seq<Option<JobId>>) {
    w.phase.Polling? ==>
      && w.consecutiveIdle <= |r|
      && (forall k :: |r| - w.consecutiveIdle <= k < |r| ==> r[k] == None)
      && (w.consecutiveIdle < |r| ==> r[|r| - w.consecutiveIdle - 1].Some?)
  }

  /** A claim is never the end. */
  lemma ClaimGrows(m: int, r: seq<Option<JobId>>, id: JobId, jobIds: seq<JobId>, idlePolls: nat)
    requires IsRunOf(r, m, false, jobIds, idlePolls)
    ensures IsRunOf(r + [Some(id)], m, false, jobIds + [id], idlePolls)
  {
    var r' := r + [Some(id)];
    assert r'[..|r|] == r;
    assert r'[|r|].Some?;
    forall k | 0 <= k < |r'| ensures !EndsIdle(r'[..k], Patience(m)) {
      if k < |r| { assert r'[..k] == r[..k]; }
    }
  }

  /** One more empty reply is the end exactly when it completes a row of m. */
  lemma EmptyGrows(m: int, r: seq<Option<JobId>>, jobIds: seq<JobId>, idlePolls: nat, idle: nat)
    requires IsRunOf(r, m, false, jobIds, idlePolls)
    requires idle <= |r| && (forall k :: |r| - idle <= k < |r| ==> r[k] == None) && (idle < |r| ==> r[|r| - idle - 1].Some?)
    ensures IsRunOf(r + [None], m, idle + 1 >= m, jobIds, idlePolls + 1)
  {
    var r', k := r + [None], Patience(m);
    assert r'[..|r|] == r;
    forall j | 0 <= j < |r'| ensures !EndsIdle(r'[..j], k) {
      if j < |r| { assert r'[..j] == r[..j]; }
    }
    if idle < |r| { assert r'[|r'| - (idle + 1) - 1].Some?; }
  }

  lemma PollReflects(m: int, p: Pool, i: nat, r: seq<Option<JobId>>)
    requires i < |p.workers| && p.workers[i].phase.Polling?
    requires Reflects(m, p.workers[i], r) && CountsIdle(p.workers[i], r)
    ensures
      var w', r' := Step(m, p, Poll(i)).workers[i], r + Told(m, p, Poll(i), i);
      Reflects(m, w', r') && CountsIdle(w', r')
  {
    var w, w' := p.workers[i], Step(m, p, Poll(i)).workers[i];
    if w'.phase.Handling? {
      assert (r + [Some(w'.phase.job)])[..|r|] == r;
    } else {
      EmptyGrows(m, r, w.jobIds, w.idlePolls, w.consecutiveIdle);
    }
  }

  lemma RecordReflects(m: int, p: Pool, i: nat, r: seq<Option<JobId>>)
    requires i < |p.workers| && p.workers[i].phase.Finished? && Reflects(m, p.workers[i], r)
    ensures
      var w' := Step(m, p, Record(i)).workers[i];
      Reflects(m, w', r) && CountsIdle(w', r)
  {
    var w := p.workers[i];
    ClaimGrows(m, r[..|r| - 1], w.phase.job, w.jobIds, w.idlePolls);
    assert r == r[..|r| - 1] + [Some(w.phase.job)];
  }

  lemma StepReflects(m: int, p: Pool, e: Event, i: nat, r: seq<Option<JobId>>)
    requires i < |p.workers| && Reflects(m, p.workers[i], r) && CountsIdle(p.workers[i], r)
    ensures
      var w', r' := Step(m, p, e).workers[i], r + Told(m, p, e, i);
      Reflects(m, w', r') && CountsIdle(w', r')
  {
    if e == Poll(i) && p.workers[i].phase.Polling? {
      PollReflects(m, p, i, r);
    } else {
      assert r + [] == r;
      if e == Record(i) && p.workers[i].phase.Finished? {
        RecordReflects(m, p, i, r);
      }
    }
  }

  lemma {:induction false} RunReflects(m: int, p: Pool, es: seq<Event>, i: nat, r: seq<Option<JobId>>)
    requires i < |p.workers| && Reflects(m, p.workers[i], r) && CountsIdle(p.workers[i], r)
    ensures i < |Exec(m, p, es).workers|
    ensures Reflects(m, Exec(m, p, es).workers[i], r + Replies(m, p, es, i))
    decreases |es|
  {
    if es == [] {
      assert r + [] == r;
    } else {
      StepReflects(m, p, es[0], i, r);
      var told := Told(m, p, es[0], i);
      RunReflects(m, Step(m, p, es[0]), es[1..], i, r + told);
      assert r + Replies(m, p, es, i) == r + told + Replies(m, Step(m, p, es[0]), es[1..], i);
    }
  }

  lemma HoldingIsNotTheEnd(m: int, r: seq<Option<JobId>>, jobIds: seq<JobId>, idlePolls: nat)
    requires r != [] && r[|r| - 1].Some? && IsRunOf(r[..|r| - 1], m, false, jobIds, idlePolls)
    ensures !EndsIdle(r, Patience(m)) && forall k :: 0 <= k < |r| ==> !EndsIdle(r[..k], Patience(m))
  {
    var n := |r| - 1;
    forall k | 0 <= k < |r| ensures !EndsIdle(r[..k], Patience(m)) {
      if k < n { assert r[..n][..k] == r[..k]; }
    }
  }

  /** What the replies say of a worker. */
  ghost predicate IsTheLoop(m: int, w: Worker, r: seq<Option<JobId>>) {
    && (w.phase.Returned? <==> EndsIdle(r, Patience(m)))
    && (forall k :: 0 <= k < |r| ==> !EndsIdle(r[..k], Patience(m)))
    && (w.phase.Polling? || w.phase.Returned? ==> IsRunOf(r, m, w.phase.Returned?, w.jobIds, w.idlePolls))
    && (Holding(w) ==>
          r != [] && r[|r| - 1] == Some(w.phase.job) && IsRunOf(r[..|r| - 1], m, false, w.jobIds, w.idlePolls))
  }

  lemma ReflectsIsTheLoop(m: int, w: Worker, r: seq<Option<JobId>>)
    requires Reflects(m, w, r)
    ensures IsTheLoop(m, w, r)
  {
    if Holding(w) {
      HoldingIsNotTheEnd(m, r, w.jobIds, w.idlePolls);
    } else if w.phase.Crashed? && !IsRunOf(r, m, false, w.jobIds, w.idlePolls) {
      HoldingIsNotTheEnd(m, r, w.jobIds, w.idlePolls);
    }
  }

  /**
   * In any run a worker is where the loop is after the replies its polls got. It has returned exactly when the last m of
   * them were empty, which never happened before; while it polls, and once it has returned, its list and its count of
   * idle polls are the loop's; a job in hand is the last reply, still to be noted.
   */
  lemma WorkersAreTheLoop(m: int, start: Pool, es: seq<Event>, i: nat)
    requires Initial(start) && i < |start.workers|
    ensures i < |Exec(m, start, es).workers| && IsTheLoop(m, Exec(m, start, es).workers[i], Replies(m, start, es, i))
  {
    assert start.workers[i] == FRESH_WORKER;
    RunReflects(m, start, es, i, []);
    assert [] + Replies(m, start, es, i) == Replies(m, start, es, i);
    ReflectsIsTheLoop(m, Exec(m, start, es).workers[i], Replies(m, start, es, i));
  }
}

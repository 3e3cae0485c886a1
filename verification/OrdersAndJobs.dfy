/** All or nothing: over every interleaving, committed checkouts, their orders and their jobs match one to one. */
module OrdersAndJobs {
  import opened Domain
  import opened Ledger
  import opened LedgerConservation
  import opened LedgerEffects

  /** The finished checkouts that placed their order. */
  function Placed(outcomes: map<TxnId, Outcome>): set<TxnId> {
    set t | t in outcomes && outcomes[t].Committed? && outcomes[t].program.PlaceOrder?
  }

  /** The order of a committed checkout is on the books at its full cost, with its job, and was priced above zero. */
  ghost predicate OrderStands(rows: map<RowId, Row>, jobs: seq<RowId>, r: Checkout, order: RowId) {
    && order in rows && order in jobs
    && rows[order].account == r.account && rows[order].kind.Buy? && rows[order].amount == r.Cost()
    && r.quantity > 0 && r.unitPriceCents > 0
  }

  ghost predicate AllStand(s: State) {
    forall t :: t in Placed(s.outcomes) ==>
      OrderStands(s.rows, s.jobs, s.outcomes[t].program.request, s.outcomes[t].program.order)
  }

  ghost predicate Paired(start: State, s: State) {
    && AllStand(s)
    && |s.jobs| == |start.jobs| + |Placed(s.outcomes)|
  }

  /** A commit never loses a row and never changes what an order is for, only its status. */
  lemma OrdersOutliveCommits(env: Env, s: State, s': State, p: Program, r: Checkout, order: RowId)
    requires TookEffect(env, s, s', p) && OrderStands(s.rows, s.jobs, r, order)
    ensures OrderStands(s'.rows, s'.jobs, r, order)
  {
  }

  lemma NewOrderStands(env: Env, s: State, s': State, r: Checkout, order: RowId)
    requires TookEffect(env, s, s', PlaceOrder(r, order))
    ensures OrderStands(s'.rows, s'.jobs, r, order)
  {
    assert s'.jobs[|s.jobs|] == order;
    assert (r.unitPriceCents as real) / 100.0 > 0.0;
  }

  lemma CommitKeepsAllStanding(env: Env, s: State, s': State, t: TxnId, p: Program)
    requires AllStand(s) && TookEffect(env, s, s', p) && s'.outcomes == s.outcomes[t := Committed(p)]
    ensures AllStand(s')
  {
    forall u | u in Placed(s'.outcomes)
      ensures OrderStands(s'.rows, s'.jobs, s'.outcomes[u].program.request, s'.outcomes[u].program.order)
    {
      if u == t {
        NewOrderStands(env, s, s', p.request, p.order);
      } else {
        assert u in Placed(s.outcomes);
        OrdersOutliveCommits(env, s, s', p, s.outcomes[u].program.request, s.outcomes[u].program.order);
      }
    }
  }

  lemma CommitCounts(outcomes: map<TxnId, Outcome>, t: TxnId, p: Program)
    requires t !in outcomes
    ensures |Placed(outcomes[t := Committed(p)])| == |Placed(outcomes)| + if p.PlaceOrder? then 1 else 0
  {
    assert Placed(outcomes[t := Committed(p)]) == Placed(outcomes) + if p.PlaceOrder? then {t} else {};
  }

  lemma CommitKeepsPaired(env: Env, start: State, s: State, t: TxnId)
    requires Paired(start, s) && t in s.txns && s.txns[t].plan == [] && t !in s.outcomes && Follows(env, s, s.txns[t])
    ensures Paired(start, Step(env, s, Commit(t)))
  {
    CommitTakesEffect(env, s, t);
    CommitKeepsAllStanding(env, s, Step(env, s, Commit(t)), t, s.txns[t].program);
    CommitCounts(s.outcomes, t, s.txns[t].program);
  }

  ghost predicate PairInv(env: Env, start: State, s: State, opening: map<AccountId, int>) {
    EffInv(env, s, opening) && Paired(start, s) && s.txns.Keys !! s.outcomes.Keys
  }

  lemma StepKeepsPaired(env: Env, start: State, s: State, e: Event, opening: map<AccountId, int>)
    requires PairInv(env, start, s, opening)
    ensures PairInv(env, start, Step(env, s, e), opening)
  {
    StepKeepsInv(env, s, e, opening);
    StepKeepsFollow(env, s, e);
    StepKeepsApart(env, s, e);
    if e.Commit? && e.t in s.txns && s.txns[e.t].plan == [] {
      CommitKeepsPaired(env, start, s, e.t);
    } else {
      OthersKeepPaired(env, start, s, e);
    }
  }

  lemma StepKeepsApart(env: Env, s: State, e: Event)
    requires s.txns.Keys !! s.outcomes.Keys
    ensures Step(env, s, e).txns.Keys !! Step(env, s, e).outcomes.Keys
  {
  }

  lemma OthersKeepPaired(env: Env, start: State, s: State, e: Event)
    requires Paired(start, s) && s.txns.Keys !! s.outcomes.Keys
    requires !(e.Commit? && e.t in s.txns && s.txns[e.t].plan == [])
    ensures Paired(start, Step(env, s, e))
  {
    assert Placed(Step(env, s, e).outcomes) == Placed(s.outcomes);
  }

  lemma {:induction false} PairedAlways(env: Env, start: State, s: State, es: seq<Event>, opening: map<AccountId, int>)
    requires PairInv(env, start, s, opening)
    ensures PairInv(env, start, Exec(env, s, es), opening)
    decreases |es|
  {
    if es != [] {
      StepKeepsPaired(env, start, s, es[0], opening);
      PairedAlways(env, start, Step(env, s, es[0]), es[1..], opening);
    }
  }

  /**
   * Over every interleaving of all three kinds of transaction, with rollbacks anywhere: each committed checkout has
   * its order and its job, there are exactly as many new jobs as committed checkouts, and none has a price of zero or
   * less (the guarded UPDATE alone would let those through; the schema does not).
   */
  lemma CheckoutsOrdersAndJobsMatch(env: Env, start: State, es: seq<Event>)
    requires AtRest(start) && start.outcomes == map[]
    ensures Paired(start, Exec(env, start, es))
  {
    var opening := map b | b in start.accounts :: start.accounts[b].balance - PostedSum(start.rows, b);
    assert Placed(start.outcomes) == {};
    PairedAlways(env, start, start, es, opening);
  }
}

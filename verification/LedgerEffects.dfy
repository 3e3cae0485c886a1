/**
 * What a committed transaction has done, whatever ran beside it: a batch has stored exactly its rows, a status change
 * exactly the new status of one row, a checkout exactly one order and one job.
 */
module LedgerEffects {
  import opened Wrappers
  import opened Domain
  import opened EffectiveRates
  import opened CreateBatch
  import opened Ledger
  import opened LedgerConservation

  // ----- where each program is in its own text -----

  predicate RatesKnown(env: Env, es: seq<Entry>) {
    forall i :: 0 <= i < |es| ==> EffectiveRate(env.ref.rates, PairOf(es[i])).Ok?
  }

  function BatchPlan(env: Env, es: seq<Entry>, ids: seq<RowId>): seq<Stmt>
    requires |ids| == |es| && RatesKnown(env, es)
  {
    Inserts(env.ref, es, ids) + Increments(es, AccountsIn(es))
  }

  /** The rows a run of statements inserts. */
  function Inserted(stmts: seq<Stmt>): map<RowId, Row> {
    if stmts == [] then map[]
    else
      var front, last := Inserted(stmts[..|stmts| - 1]), stmts[|stmts| - 1];
      if last.Insert? then front[last.id := last.row] else front
  }

  ghost predicate BatchFollows(env: Env, s: State, x: Txn)
    requires x.program.CreateMany?
  {
    var CreateMany(_, es, ids) := x.program;
    && |ids| == |es| && RatesKnown(env, es)
    && var full := BatchPlan(env, es, ids);
    && var k := |full| - |x.plan|;
    && 0 <= k && x.plan == full[k..] && x.rows == Inserted(full[..k]) && x.jobs == []
    && x.rows.Keys !! s.rows.Keys
    && forall i :: 0 <= i < |full| ==> full[i].Insert? || full[i].Increment?
  }

  ghost predicate AllResolvable(env: Env, s: State, user: UserId, es: seq<Entry>) {
    forall i :: 0 <= i < |es| ==> Resolvable(env, s.accounts, user, es[i])
  }

  function RowAt(env: Env, es: seq<Entry>, i: nat): Row
    requires i < |es| && RatesKnown(env, es)
  {
    RowOf(env.ref, es[i], EffectiveRate(env.ref.rates, PairOf(es[i])).value)
  }

  lemma {:induction false} InsertsAt(env: Env, es: seq<Entry>, ids: seq<RowId>)
    requires |ids| == |es| && RatesKnown(env, es)
    ensures |Inserts(env.ref, es, ids)| == |es|
    ensures forall i: nat :: i < |es| ==> Inserts(env.ref, es, ids)[i] == Insert(ids[i], RowAt(env, es, i))
    decreases |es|
  {
    if es != [] {
      InsertsAt(env, es[..|es| - 1], ids[..|es| - 1]);
    }
  }

  /** The entries passed the checks of the service, and the rows inserted so far those of the schema. */
  ghost predicate BatchGood(env: Env, s: State, x: Txn)
    requires x.program.CreateMany?
  {
    var CreateMany(user, es, ids) := x.program;
    && |ids| == |es| && AllResolvable(env, s, user, es) && RatesKnown(env, es)
    && InsertedWell(env, es, ids, |BatchPlan(env, es, ids)| - |x.plan|)
  }

  ghost predicate InsertedWell(env: Env, es: seq<Entry>, ids: seq<RowId>, k: int)
    requires |ids| == |es| && RatesKnown(env, es)
  {
    && (forall i: nat :: i < k && i < |es| ==> ChecksHold(RowAt(env, es, i)))
    && (forall i, j :: 0 <= i < j < k && j < |es| ==> ids[i] != ids[j])
  }

  ghost predicate StatusFollows(s: State, x: Txn)
    requires x.program.ChangeStatus?
  {
    var ChangeStatus(order, target, user) := x.program;
    && x.jobs == []
    && if x.plan == [LockOrder(order, target, user)] then x.rows == map[]
       else
         && order in s.rows
         && s.rows[order].account in s.accounts && s.accounts[s.rows[order].account].user == user
         && var row := s.rows[order];
         || (x.plan == StatusPlan(order, row, target) && x.rows == map[order := row])
         || ((x.plan == [] || (|x.plan| == 1 && x.plan[0].Increment?)) && x.rows == map[order := row.(status := target)])
  }

  /** The order row, once the account and the rate are known. */
  function OrderOf(env: Env, s: State, r: Checkout): Option<Row> {
    if r.account !in s.accounts || RateFor(env, s.accounts[r.account].currency) == None then None
    else Some(OrderRow(r, s.accounts[r.account].currency, RateFor(env, s.accounts[r.account].currency).value))
  }

  /** The INSERT of the order went through. */
  ghost predicate Accepted(env: Env, s: State, r: Checkout, order: RowId) {
    OrderOf(env, s, r).Some? && ChecksHold(OrderOf(env, s, r).value) && order !in s.rows && r.instrument in env.instrumentIds
  }

  ghost predicate CheckoutFollows(env: Env, s: State, x: Txn)
    requires x.program.PlaceOrder?
  {
    var PlaceOrder(r, order) := x.program;
    && r.quantity > 0
    && if x.plan == [Debit(r, order)] then x.rows == map[] && x.jobs == [] && x.balances == map[]
       else
         && OrderOf(env, s, r).Some?
         && var row := OrderOf(env, s, r).value;
         && x.balances == map[r.account := s.accounts[r.account].balance - r.Cost()]
         && s.accounts[r.account].balance >= r.Cost()
         && (|| (x.plan == [Insert(order, row), Enqueue(order)] && x.rows == map[] && x.jobs == [])
             || (x.plan == [Enqueue(order)] && x.rows == map[order := row] && x.jobs == [] && Accepted(env, s, r, order))
             || (x.plan == [] && x.rows == map[order := row] && x.jobs == [order] && Accepted(env, s, r, order)))
  }

  ghost predicate Follows(env: Env, s: State, x: Txn) {
    match x.program
    case CreateMany(_, _, _) => BatchFollows(env, s, x) && BatchGood(env, s, x)
    case ChangeStatus(_, _, _) => StatusFollows(s, x)
    case PlaceOrder(_, _) => CheckoutFollows(env, s, x)
  }

  // ----- every step keeps it -----

  lemma BeginFollows(env: Env, s: State, p: Program)
    requires Plan(env, s.accounts, p).Ok?
    ensures Follows(env, s, Txn(p, Plan(env, s.accounts, p).value, map[], map[], []))
  {
    if p.CreateMany? {
      assert AllResolvable(env, s, p.user, p.entries);
      assert RatesKnown(env, p.entries);
      BatchPlanIsPlain(env.ref, p.entries, p.ids);
    }
  }

  lemma {:induction false} InsertedHas(stmts: seq<Stmt>, i: nat)
    requires i < |stmts| && stmts[i].Insert?
    ensures stmts[i].id in Inserted(stmts)
    decreases |stmts|
  {
    if i < |stmts| - 1 {
      InsertedHas(stmts[..|stmts| - 1], i);
    }
  }

  lemma InsertedWellGrows(env: Env, es: seq<Entry>, ids: seq<RowId>, k: nat)
    requires |ids| == |es| && RatesKnown(env, es) && k < |BatchPlan(env, es, ids)| && InsertedWell(env, es, ids, k)
    requires k < |es| ==> ids[k] !in Inserted(BatchPlan(env, es, ids)[..k]) && ChecksHold(RowAt(env, es, k))
    ensures InsertedWell(env, es, ids, k + 1)
  {
    var full := BatchPlan(env, es, ids);
    InsertsAt(env, es, ids);
    if k < |es| {
      forall i: nat | i < k ensures ids[i] != ids[k] {
        assert full[..k][i] == Insert(ids[i], RowAt(env, es, i));
        InsertedHas(full[..k], i);
      }
    }
  }

  /** A statement of a batch that runs takes itself off the plan; an INSERT has passed the schema. */
  lemma BatchStatementRan(env: Env, s: State, t: TxnId)
    requires t in s.txns && s.txns[t].plan != [] && Run(env, s, t).Runs?
    requires s.txns[t].plan[0].Insert? || s.txns[t].plan[0].Increment?
    ensures
      var x, x' := s.txns[t], Run(env, s, t).txn;
      && x'.program == x.program && x'.plan == x.plan[1..]
      && (x.plan[0].Insert? ==> x.plan[0].id !in x.rows && ChecksHold(x.plan[0].row))
  {
  }

  /** A row that went in passed its checks and took an id no earlier row of the batch has. */
  lemma BatchRunStaysGood(env: Env, s: State, t: TxnId)
    requires t in s.txns && s.txns[t].plan != [] && Run(env, s, t).Runs?
    requires s.txns[t].program.CreateMany? && BatchFollows(env, s, s.txns[t]) && BatchGood(env, s, s.txns[t])
    ensures Run(env, s, t).txn.program == s.txns[t].program && BatchGood(env, s, Run(env, s, t).txn)
  {
    var x := s.txns[t];
    var CreateMany(_, es, ids) := x.program;
    var full := BatchPlan(env, es, ids);
    var k := |full| - |x.plan|;
    assert x.plan[0] == full[k];
    BatchStatementRan(env, s, t);
    InsertsAt(env, es, ids);
    if k < |es| {
      assert full[k] == Insert(ids[k], RowAt(env, es, k));
    }
    InsertedWellGrows(env, es, ids, k);
  }

  lemma BatchRunFollows(env: Env, s: State, t: TxnId)
    requires t in s.txns && s.txns[t].plan != [] && Run(env, s, t).Runs?
    requires s.txns[t].program.CreateMany? && BatchFollows(env, s, s.txns[t])
    ensures Run(env, s, t).txn.program == s.txns[t].program && BatchFollows(env, s, Run(env, s, t).txn)
  {
    var x := s.txns[t];
    var full := BatchPlan(env, x.program.entries, x.program.ids);
    var k := |full| - |x.plan|;
    assert full[..k + 1][..k] == full[..k];
    assert full[k..][1..] == full[k + 1..];
    assert x.plan[0] == full[k];
  }

  lemma StatusRunFollows(env: Env, s: State, t: TxnId)
    requires t in s.txns && s.txns[t].plan != [] && Run(env, s, t).Runs?
    requires s.txns[t].program.ChangeStatus? && StatusFollows(s, s.txns[t])
    ensures Run(env, s, t).txn.program == s.txns[t].program && StatusFollows(s, Run(env, s, t).txn)
  {
  }

  lemma CheckoutRunFollows(env: Env, s: State, t: TxnId)
    requires t in s.txns && s.txns[t].plan != [] && Run(env, s, t).Runs?
    requires s.txns[t].program.PlaceOrder? && CheckoutFollows(env, s, s.txns[t])
    ensures Run(env, s, t).txn.program == s.txns[t].program && CheckoutFollows(env, s, Run(env, s, t).txn)
  {
    var PlaceOrder(r, order) := s.txns[t].program;
    assert [Enqueue(order)][1..] == [];
    if OrderOf(env, s, r).Some? {
      assert [Insert(order, OrderOf(env, s, r).value), Enqueue(order)][1..] == [Enqueue(order)];
    }
  }

  lemma RunFollows(env: Env, s: State, t: TxnId)
    requires t in s.txns && s.txns[t].plan != [] && Run(env, s, t).Runs? && Follows(env, s, s.txns[t])
    ensures Follows(env, s, Run(env, s, t).txn)
  {
    match s.txns[t].program
    case CreateMany(_, _, _) =>
      BatchRunFollows(env, s, t);
      BatchRunStaysGood(env, s, t);
    case ChangeStatus(_, _, _) => StatusRunFollows(env, s, t);
    case PlaceOrder(_, _) => CheckoutRunFollows(env, s, t);
  }

  /** The two states agree on everything a transaction has locked, and on who owns what in which currency. */
  ghost predicate AgreeFor(s: State, s': State, x: Txn) {
    && s.accounts.Keys == s'.accounts.Keys
    && (forall a :: a in s.accounts ==> s.accounts[a].user == s'.accounts[a].user && s.accounts[a].currency == s'.accounts[a].currency)
    && (forall a :: a in s.accounts && a in x.balances ==> s.accounts[a].balance == s'.accounts[a].balance)
    && (forall id :: id in x.rows ==> (id in s.rows <==> id in s'.rows) && (id in s.rows ==> s.rows[id] == s'.rows[id]))
  }

  lemma CheckoutFrame(env: Env, s: State, s': State, x: Txn)
    requires AgreeFor(s, s', x) && x.program.PlaceOrder? && CheckoutFollows(env, s, x)
    ensures CheckoutFollows(env, s', x)
  {
    if x.plan != [Debit(x.program.request, x.program.order)] {
      assert x.program.request.account in x.balances;
      assert OrderOf(env, s', x.program.request) == OrderOf(env, s, x.program.request);
    }
  }

  lemma StatusFrame(s: State, s': State, x: Txn)
    requires AgreeFor(s, s', x) && x.program.ChangeStatus? && StatusFollows(s, x)
    ensures StatusFollows(s', x)
  {
    if x.plan != [LockOrder(x.program.order, x.program.status, x.program.user)] {
      assert x.program.order in x.rows;
    }
  }

  lemma BatchFrame(env: Env, s: State, s': State, x: Txn)
    requires AgreeFor(s, s', x) && x.program.CreateMany? && BatchFollows(env, s, x) && BatchGood(env, s, x)
    ensures BatchFollows(env, s', x) && BatchGood(env, s', x)
  {
    var CreateMany(user, es, ids) := x.program;
    forall i | 0 <= i < |es| ensures Resolvable(env, s'.accounts, user, es[i]) {
      assert Resolvable(env, s.accounts, user, es[i]);
    }
    assert x.rows.Keys !! s'.rows.Keys;
  }

  lemma FollowsFrame(env: Env, s: State, s': State, x: Txn)
    requires AgreeFor(s, s', x) && Follows(env, s, x)
    ensures Follows(env, s', x)
  {
    match x.program
    case CreateMany(_, _, _) => BatchFrame(env, s, s', x);
    case ChangeStatus(_, _, _) => StatusFrame(s, s', x);
    case PlaceOrder(_, _) => CheckoutFrame(env, s, s', x);
  }

  /** Another transaction's commit cannot touch what this one has locked. */
  lemma OthersAgree(env: Env, s: State, t: TxnId, u: TxnId)
    requires LocksExclude(s) && t in s.txns && u in s.txns && t != u && s.txns[t].plan == []
    ensures AgreeFor(s, Step(env, s, Commit(t)), s.txns[u])
  {
  }

  ghost predicate EffInv(env: Env, s: State, opening: map<AccountId, int>) {
    Inv(s, opening) && AllFollow(env, s)
  }

  ghost predicate AllFollow(env: Env, s: State) {
    forall t :: t in s.txns ==> Follows(env, s, s.txns[t])
  }

  /** Only a commit changes the tables, so only the moving transaction has anything to show. */
  lemma MoverFollows(env: Env, s: State, s': State, t: TxnId)
    requires AllFollow(env, s) && s'.accounts == s.accounts && s'.rows == s.rows
    requires forall u :: u in s'.txns && u != t ==> u in s.txns && s'.txns[u] == s.txns[u]
    requires t in s'.txns ==> Follows(env, s, s'.txns[t])
    ensures AllFollow(env, s')
  {
    forall u | u in s'.txns ensures Follows(env, s', s'.txns[u]) {
      FollowsFrame(env, s, s', s'.txns[u]);
    }
  }

  lemma CommitKeepsFollow(env: Env, s: State, t: TxnId)
    requires AllFollow(env, s) && LocksExclude(s)
    ensures AllFollow(env, Step(env, s, Commit(t)))
  {
    if t in s.txns && s.txns[t].plan == [] {
      var s' := Step(env, s, Commit(t));
      forall u | u in s'.txns ensures Follows(env, s', s'.txns[u]) {
        OthersAgree(env, s, t, u);
        FollowsFrame(env, s, s', s.txns[u]);
      }
    }
  }

  lemma ExecuteKeepsFollow(env: Env, s: State, t: TxnId)
    requires AllFollow(env, s)
    ensures AllFollow(env, Step(env, s, Execute(t)))
  {
    if t in s.txns && s.txns[t].plan != [] {
      match Run(env, s, t) {
        case Waits =>
        case Throws(reason) => MoverFollows(env, s, Finish(s, t, RolledBack(s.txns[t].program, reason)), t);
        case Runs(x) =>
          RunFollows(env, s, t);
          MoverFollows(env, s, s.(txns := s.txns[t := x]), t);
      }
    }
  }

  lemma BeginKeepsFollow(env: Env, s: State, t: TxnId, p: Program)
    requires AllFollow(env, s)
    ensures AllFollow(env, Step(env, s, Begin(t, p)))
  {
    if t !in s.txns && t !in s.outcomes {
      match Plan(env, s.accounts, p) {
        case Ok(plan) =>
          BeginFollows(env, s, p);
          MoverFollows(env, s, s.(txns := s.txns[t := Txn(p, plan, map[], map[], [])]), t);
        case Err(reason) => MoverFollows(env, s, s.(outcomes := s.outcomes[t := RolledBack(p, reason)]), t);
      }
    }
  }

  lemma StepKeepsFollow(env: Env, s: State, e: Event)
    requires AllFollow(env, s) && LocksExclude(s)
    ensures AllFollow(env, Step(env, s, e))
  {
    match e
    case Begin(t, p) => BeginKeepsFollow(env, s, t, p);
    case Execute(t) => ExecuteKeepsFollow(env, s, t);
    case Commit(t) => CommitKeepsFollow(env, s, t);
    case Abort(t) => MoverFollows(env, s, Step(env, s, e), t);
  }

  lemma {:induction false} EffAlways(env: Env, s: State, es: seq<Event>, opening: map<AccountId, int>)
    requires EffInv(env, s, opening)
    ensures EffInv(env, Exec(env, s, es), opening)
    decreases |es|
  {
    if es != [] {
      StepKeepsInv(env, s, es[0], opening);
      StepKeepsFollow(env, s, es[0]);
      EffAlways(env, Step(env, s, es[0]), es[1..], opening);
    }
  }

  // ----- what a commit has done -----

  lemma {:induction false} InsertedIsNewRows(env: Env, es: seq<Entry>, ids: seq<RowId>)
    requires |ids| == |es| && RatesKnown(env, es)
    ensures Inserted(Inserts(env.ref, es, ids)) == NewRows(env.ref, es, ids)
    decreases |es|
  {
    if es != [] {
      var n := |es| - 1;
      InsertedIsNewRows(env, es[..n], ids[..n]);
      var stmts := Inserts(env.ref, es, ids);
      assert stmts[..|stmts| - 1] == Inserts(env.ref, es[..n], ids[..n]);
    }
  }

  lemma {:induction false} IncrementsInsertNothing(p: seq<Stmt>, q: seq<Stmt>)
    requires forall i :: 0 <= i < |q| ==> q[i].Increment?
    ensures Inserted(p + q) == Inserted(p)
    decreases |q|
  {
    if q == [] {
      assert p + q == p;
    } else {
      var n := |q| - 1;
      assert (p + q)[..|p + q| - 1] == p + q[..n];
      IncrementsInsertNothing(p, q[..n]);
    }
  }

  lemma {:induction false} IncrementsAreIncrements(es: seq<Entry>, accounts: seq<AccountId>)
    ensures forall i :: 0 <= i < |Increments(es, accounts)| ==> Increments(es, accounts)[i].Increment?
  {
    if accounts != [] {
      IncrementsAreIncrements(es, accounts[1..]);
    }
  }

  lemma FinishedBatchHasItsRows(env: Env, s: State, x: Txn)
    requires x.program.CreateMany? && x.plan == [] && BatchFollows(env, s, x)
    ensures x.rows == NewRows(env.ref, x.program.entries, x.program.ids)
  {
    var CreateMany(_, es, ids) := x.program;
    var full := BatchPlan(env, es, ids);
    assert full[..|full|] == full;
    InsertedIsNewRows(env, es, ids);
    IncrementsAreIncrements(es, AccountsIn(es));
    IncrementsInsertNothing(Inserts(env.ref, es, ids), Increments(es, AccountsIn(es)));
  }

  /** The rows and jobs a program leaves behind. */
  ghost predicate TookEffect(env: Env, s: State, s': State, p: Program) {
    match p
    case CreateMany(_, es, ids) =>
      && |ids| == |es| && RatesKnown(env, es)
      && s'.rows == s.rows + NewRows(env.ref, es, ids)
      && NewRows(env.ref, es, ids).Keys !! s.rows.Keys
      && s'.jobs == s.jobs
    case ChangeStatus(order, target, user) =>
      && order in s.rows && s.rows[order].account in s.accounts && s.accounts[s.rows[order].account].user == user
      && s'.rows == s.rows[order := s.rows[order].(status := target)]
      && s'.jobs == s.jobs
    case PlaceOrder(r, order) =>
      && r.quantity > 0 && Accepted(env, s, r, order)
      && s'.rows == s.rows[order := OrderOf(env, s, r).value]
      && s'.jobs == s.jobs + [order]
      && s.accounts[r.account].balance >= r.Cost()
      && s'.accounts == s.accounts[r.account := s.accounts[r.account].(balance := s.accounts[r.account].balance - r.Cost())]
  }

  lemma BatchTakesEffect(env: Env, s: State, t: TxnId)
    requires t in s.txns && s.txns[t].plan == [] && s.txns[t].program.CreateMany? && BatchFollows(env, s, s.txns[t])
    ensures TookEffect(env, s, Step(env, s, Commit(t)), s.txns[t].program)
  {
    FinishedBatchHasItsRows(env, s, s.txns[t]);
  }

  lemma StatusTakesEffect(env: Env, s: State, t: TxnId)
    requires t in s.txns && s.txns[t].plan == [] && s.txns[t].program.ChangeStatus? && StatusFollows(s, s.txns[t])
    ensures TookEffect(env, s, Step(env, s, Commit(t)), s.txns[t].program)
  {
    var x, s' := s.txns[t], Step(env, s, Commit(t));
    var ChangeStatus(order, target, user) := x.program;
    assert s.rows[order].(status := target) == x.rows[order];
    assert s'.rows == s.rows[order := x.rows[order]];
  }

  lemma CheckoutTakesEffect(env: Env, s: State, t: TxnId)
    requires t in s.txns && s.txns[t].plan == [] && s.txns[t].program.PlaceOrder? && CheckoutFollows(env, s, s.txns[t])
    ensures TookEffect(env, s, Step(env, s, Commit(t)), s.txns[t].program)
  {
    var x, s' := s.txns[t], Step(env, s, Commit(t));
    var PlaceOrder(r, order) := x.program;
    assert s'.rows == s.rows[order := x.rows[order]];
    assert s'.accounts == s.accounts[r.account := s.accounts[r.account].(balance := x.balances[r.account])];
  }

  lemma CommitTakesEffect(env: Env, s: State, t: TxnId)
    requires t in s.txns && s.txns[t].plan == [] && Follows(env, s, s.txns[t])
    ensures TookEffect(env, s, Step(env, s, Commit(t)), s.txns[t].program)
  {
    match s.txns[t].program
    case CreateMany(_, _, _) => BatchTakesEffect(env, s, t);
    case ChangeStatus(_, _, _) => StatusTakesEffect(env, s, t);
    case PlaceOrder(_, _) => CheckoutTakesEffect(env, s, t);
  }

  /**
   * In every interleaving, a transaction that is ready to commit commits exactly what its program is for, and moves
   * every balance by exactly what its rows book.
   */
  lemma EveryCommitTakesEffect(env: Env, start: State, es: seq<Event>, t: TxnId)
    requires AtRest(start)
    requires var s := Exec(env, start, es); t in s.txns && s.txns[t].plan == []
    ensures
      var s := Exec(env, start, es);
      var s' := Step(env, s, Commit(t));
      && TookEffect(env, s, s', s.txns[t].program)
      && s'.accounts.Keys == s.accounts.Keys
      && forall a :: a in s.accounts ==>
           s'.accounts[a].balance - s.accounts[a].balance == PostedSum(s'.rows, a) - PostedSum(s.rows, a)
  {
    var opening := map b | b in start.accounts :: start.accounts[b].balance - PostedSum(start.rows, b);
    EffAlways(env, start, es, opening);
    var s := Exec(env, start, es);
    CommitTakesEffect(env, s, t);
    StepKeepsInv(env, s, Commit(t), opening);
  }
}

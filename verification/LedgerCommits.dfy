/**
 * Every committed transaction of every interleaving is the sequential service run at the moment of its commit: the
 * batched create, the checkout and the status change, in the state the commit finds.
 */
module LedgerCommits {
  import opened Wrappers
  import opened Domain
  import opened EffectiveRates
  import opened CreateBatch
  import opened Sums
  import opened Ledger
  import opened LedgerConservation
  import opened LedgerEffects
  import opened LedgerServices

  /** The tables alone. */
  function Rest(s: State): State { AtRestWith(s.accounts, s.rows, s.jobs) }

  // ----- what the rows of a program book -----

  lemma {:induction false} NewRowsBook(env: Env, rows: map<RowId, Row>, es: seq<Entry>, ids: seq<RowId>, a: AccountId)
    requires |ids| == |es| && RatesKnown(env, es) && FreshIds(rows, ids)
    ensures PostedSum(rows + NewRows(env.ref, es, ids), a) == PostedSum(rows, a) + SignedSum(es, a)
    decreases |es|
  {
    if es == [] {
      assert rows + map[] == rows;
    } else {
      var n := |es| - 1;
      FreshIdsGrow(rows, ids);
      NewRowsBook(env, rows, es[..n], ids[..n], a);
      NewRowsAreTheIds(env.ref, es[..n], ids[..n], ids[n]);
      var front, row := NewRows(env.ref, es[..n], ids[..n]), RowAt(env, es, n);
      MergeOne(rows, front, ids[n], row);
      OneRowBooks(rows + front, ids[n], row, a);
      assert SignedSum(es, a) == SignedSum(es[..n], a) + Booked(row, a);
    }
  }

  lemma MergeOne(rows: map<RowId, Row>, front: map<RowId, Row>, id: RowId, row: Row)
    ensures rows + front[id := row] == (rows + front)[id := row]
  {
  }

  lemma OneRowBooks(rows: map<RowId, Row>, id: RowId, row: Row, a: AccountId)
    ensures PostedSum(rows[id := row], a) ==
      PostedSum(rows, a) + Booked(row, a) - if id in rows then Booked(rows[id], a) else 0
  {
    assert BookedMap(rows[id := row], a) == BookedMap(rows, a)[id := Booked(row, a)];
    SumMapSet(BookedMap(rows, a), id, Booked(row, a));
  }

  // ----- a batch -----

  /** A batch that has come to its commit would be accepted one by one. */
  lemma FinishedBatchIsAcceptable(env: Env, s: State, x: Txn)
    requires x.program.CreateMany? && x.plan == [] && BatchFollows(env, s, x) && BatchGood(env, s, x)
    ensures AllAcceptable(env.ref, s.accounts, x.program.user, x.program.entries) && FreshIds(s.rows, x.program.ids)
  {
    var CreateMany(user, es, ids) := x.program;
    InsertsAt(env, es, ids);
    FinishedBatchHasItsRows(env, s, x);
    forall i: nat | i < |es| ensures Acceptable(env.ref, s.accounts, user, es[i]) {
      assert Resolvable(env, s.accounts, user, es[i]);
      assert ChecksHold(RowAt(env, es, i));
    }
    forall i | 0 <= i < |ids| ensures ids[i] !in s.rows {
      NewRowsAreTheIds(env.ref, es, ids, ids[i]);
    }
  }

  /** The accounts that differ from the committed ones only in their balances. */
  ghost predicate SameOwners(s: State, s': State) {
    && s'.accounts.Keys == s.accounts.Keys
    && forall a :: a in s.accounts ==> s'.accounts[a] == s.accounts[a].(balance := s'.accounts[a].balance)
  }

  lemma BatchIsTheService(env: Env, s: State, s': State, x: Txn)
    requires x.program.CreateMany? && x.plan == [] && BatchFollows(env, s, x) && BatchGood(env, s, x)
    requires SameOwners(s, s') && s'.rows == s.rows + NewRows(env.ref, x.program.entries, x.program.ids)
    requires forall a :: a in s.accounts ==>
      s'.accounts[a].balance - s.accounts[a].balance == PostedSum(s'.rows, a) - PostedSum(s.rows, a)
    ensures
      var CreateMany(user, es, ids) := x.program;
      CreateEach(env.ref, Db(s.accounts, s.rows), user, es, ids) == Ok(Db(s'.accounts, s'.rows))
  {
    var CreateMany(user, es, ids) := x.program;
    FinishedBatchIsAcceptable(env, s, x);
    CreateEachIs(env.ref, Db(s.accounts, s.rows), user, es, ids);
    forall a | a in s.accounts ensures s'.accounts[a].balance == s.accounts[a].balance + SignedSum(es, a) {
      NewRowsBook(env, s.rows, es, ids, a);
    }
    CreditIs(s, s', es);
  }

  lemma CreditIs(s: State, s': State, es: seq<Entry>)
    requires SameOwners(s, s')
    requires forall a :: a in s.accounts ==> s'.accounts[a].balance == s.accounts[a].balance + SignedSum(es, a)
    ensures s'.accounts == Credit(s.accounts, es)
  {
  }

  // ----- a status change -----

  lemma StatusIsTheService(s: State, s': State, order: RowId, target: Status, user: UserId)
    requires order in s.rows && s.rows[order].account in s.accounts && s.accounts[s.rows[order].account].user == user
    requires s'.rows == s.rows[order := s.rows[order].(status := target)] && s'.jobs == s.jobs && SameOwners(s, s')
    requires forall a :: a in s.accounts ==>
      s'.accounts[a].balance - s.accounts[a].balance == PostedSum(s'.rows, a) - PostedSum(s.rows, a)
    ensures Changed(s, order, target, user) == Ok(Rest(s'))
  {
    var row := s.rows[order];
    forall a | a in s.accounts
      ensures s'.accounts[a].balance == s.accounts[a].balance + Booked(row.(status := target), a) - Booked(row, a)
    {
      OneRowBooks(s.rows, order, row.(status := target), a);
    }
    OneAccountMoves(s, s', row.account, Booked(row.(status := target), row.account) - Booked(row, row.account));
  }

  lemma OneAccountMoves(s: State, s': State, a: AccountId, delta: int)
    requires SameOwners(s, s') && a in s.accounts && s'.accounts[a].balance == s.accounts[a].balance + delta
    requires forall b :: b in s.accounts && b != a ==> s'.accounts[b].balance == s.accounts[b].balance
    ensures s'.accounts == s.accounts[a := s.accounts[a].(balance := s.accounts[a].balance + delta)]
  {
  }

  // ----- every commit -----

  /** The sequential service, run on the tables of s, leaves the tables of s'. */
  ghost predicate ServiceDoes(env: Env, s: State, s': State, p: Program) {
    match p
    case CreateMany(user, es, ids) =>
      && |ids| == |es| && CreateEach(env.ref, Db(s.accounts, s.rows), user, es, ids) == Ok(Db(s'.accounts, s'.rows))
      && s'.jobs == s.jobs
    case ChangeStatus(order, target, user) => Changed(s, order, target, user) == Ok(Rest(s'))
    case PlaceOrder(r, order) => Checked(env, s, r, order) == Ok(Rest(s'))
  }

  lemma CommitKeepsOwners(env: Env, s: State, t: TxnId)
    requires t in s.txns && s.txns[t].plan == []
    ensures SameOwners(s, Step(env, s, Commit(t)))
  {
  }

  lemma FollowAlways(env: Env, start: State, es: seq<Event>)
    requires AtRest(start)
    ensures AllFollow(env, Exec(env, start, es))
  {
    var opening := map b | b in start.accounts :: start.accounts[b].balance - PostedSum(start.rows, b);
    EffAlways(env, start, es, opening);
  }

  /** The commit of any transaction, after any interleaving, is the service run on the tables the commit finds. */
  lemma EveryCommitIsTheService(env: Env, start: State, es: seq<Event>, t: TxnId)
    requires AtRest(start)
    requires var s := Exec(env, start, es); t in s.txns && s.txns[t].plan == []
    ensures
      var s := Exec(env, start, es);
      ServiceDoes(env, s, Step(env, s, Commit(t)), s.txns[t].program)
  {
    var s := Exec(env, start, es);
    var s', x := Step(env, s, Commit(t)), s.txns[t];
    EveryCommitTakesEffect(env, start, es, t);
    FollowAlways(env, start, es);
    CommitKeepsOwners(env, s, t);
    assert Follows(env, s, x);
    match x.program
    case CreateMany(_, _, _) => BatchIsTheService(env, s, s', x);
    case ChangeStatus(order, target, user) => StatusIsTheService(s, s', order, target, user);
    case PlaceOrder(r, order) => CheckoutIsTheService(env, s, s', r, order);
  }

  lemma CheckoutIsTheService(env: Env, s: State, s': State, r: Checkout, order: RowId)
    requires TookEffect(env, s, s', PlaceOrder(r, order))
    ensures Checked(env, s, r, order) == Ok(Rest(s'))
  {
  }

  /** The same with no word of how the services go about it. */
  ghost predicate CommittedInPlainTerms(env: Env, s: State, s': State, p: Program) {
    match p
    case CreateMany(user, es, ids) =>
      && |ids| == |es| && (forall i :: 0 <= i < |es| ==> Storable(env.ref, s.accounts, user, es[i]))
      && BatchBooked(env.ref, Db(s.accounts, s.rows), Db(s'.accounts, s'.rows), es, ids) && s'.jobs == s.jobs
    case ChangeStatus(order, target, user) => StatusBooked(s, s', order, target, user)
    case PlaceOrder(r, order) => CheckoutFits(env, s, r, order) && CheckoutBooked(env, s, s', r, order)
  }

  /**
   * After any interleaving, a commit books what its program is for: each entry of a batch as a row, with every balance
   * moved by what comes in minus what goes out; the amount of a row that crosses the `posted` line; one order, one job
   * and its cost.
   */
  lemma EveryCommitInPlainTerms(env: Env, start: State, es: seq<Event>, t: TxnId)
    requires AtRest(start)
    requires var s := Exec(env, start, es); t in s.txns && s.txns[t].plan == []
    ensures
      var s := Exec(env, start, es);
      CommittedInPlainTerms(env, s, Step(env, s, Commit(t)), s.txns[t].program)
  {
    var s := Exec(env, start, es);
    EveryCommitIsTheService(env, start, es, t);
    match s.txns[t].program
    case CreateMany(user, entries, ids) => CreatedExactlyWhen(env.ref, Db(s.accounts, s.rows), user, entries, ids);
    case ChangeStatus(order, target, user) => StatusChangeInPlainTerms(s, order, target, user);
    case PlaceOrder(r, order) => CheckoutInPlainTerms(env, s, r, order);
  }

  // ----- what only a commit may do -----

  /** Statements, starts and rollbacks touch no table: what is not committed is nowhere. */
  lemma OnlyCommitsTouchTables(env: Env, s: State, e: Event)
    requires !e.Commit?
    ensures Rest(Step(env, s, e)) == Rest(s)
  {
  }

  lemma {:induction false} UncommittedRunsTouchNothing(env: Env, s: State, es: seq<Event>)
    requires forall i :: 0 <= i < |es| ==> !es[i].Commit?
    ensures Rest(Exec(env, s, es)) == Rest(s)
    decreases |es|
  {
    if es != [] {
      UncommittedRunsTouchNothing(env, Step(env, s, es[0]), es[1..]);
    }
  }

  /** Whatever else is open, a transaction can start: with nothing written, or turned down before its first write. */
  lemma StartsBesideAnyOther(env: Env, s: State, t: TxnId, p: Program)
    requires t !in s.txns && t !in s.outcomes
    ensures
      var s' := Step(env, s, Begin(t, p));
      && (forall u :: u in s.txns ==> u in s'.txns && s'.txns[u] == s.txns[u])
      && (t in s'.txns ==> s'.txns[t].program == p && s'.txns[t].rows == map[] && s'.txns[t].balances == map[])
      && (t in s'.txns <==> t !in s'.outcomes)
      && (p.ChangeStatus? ==> t in s'.txns)
      && (p.PlaceOrder? ==> if p.request.quantity > 0 then t in s'.txns else s'.outcomes[t] == RolledBack(p, BadQuantity))
      && (p.CreateMany? && t !in s'.txns ==> s'.outcomes[t] == RolledBack(p, BadEntry))
  {
  }

  /** Transaction `x` has written or locked what the statement is about to. */
  predicate HoldsFor(x: Txn, stmt: Stmt) {
    match stmt
    case Insert(id, _) => id in x.rows
    case LockOrder(id, _, _) => id in x.rows
    case Increment(a, _) => a in x.balances
    case Debit(r, _) => r.account in x.balances
    case _ => false
  }

  /** A statement that waits, waits for an account or a row that another open transaction has written or locked. */
  lemma WaitsOnlyForLocks(env: Env, s: State, t: TxnId)
    requires t in s.txns && s.txns[t].plan != [] && Step(env, s, Execute(t)) == s
    ensures exists u :: u in s.txns && u != t && HoldsFor(s.txns[u], s.txns[t].plan[0])
  {
    if Run(env, s, t).Runs? {
      assert false;
    }
  }

  // ----- a crash -----

  /** One lost connection: nothing of it stays, its locks are free, and nobody else notices. */
  lemma LostConnection(env: Env, s: State, t: TxnId)
    requires t in s.txns
    ensures
      var s' := Step(env, s, Abort(t));
      && Rest(s') == Rest(s) && s'.txns == s.txns - {t}
      && s'.outcomes == s.outcomes[t := RolledBack(s.txns[t].program, ConnectionLost)]
  {
  }

  /**
   * A crash at any moment: when every open connection is lost, the tables are exactly what had been committed, nothing
   * is locked, and each transaction that was open is known as rolled back.
   */
  lemma {:induction false} CrashLeavesTheCommitted(env: Env, s: State) returns (es: seq<Event>)
    ensures forall i :: 0 <= i < |es| ==> es[i].Abort?
    ensures
      var s' := Exec(env, s, es);
      && s'.accounts == s.accounts && s'.rows == s.rows && s'.jobs == s.jobs && s'.txns == map[]
      && (forall t :: t in s.txns ==> t in s'.outcomes && s'.outcomes[t] == RolledBack(s.txns[t].program, ConnectionLost))
      && (forall t :: t !in s.txns ==>
            (t in s'.outcomes <==> t in s.outcomes) && (t in s.outcomes ==> s'.outcomes[t] == s.outcomes[t]))
    decreases |s.txns.Keys|
  {
    if s.txns == map[] {
      es := [];
    } else {
      var t :| t in s.txns;
      LostConnection(env, s, t);
      var s1 := Step(env, s, Abort(t));
      assert s1.txns.Keys == s.txns.Keys - {t};
      var rest := CrashLeavesTheCommitted(env, s1);
      es := [Abort(t)] + rest;
      assert es[1..] == rest && t !in s1.txns;
    }
  }
}

/**
 * Batch create in the ledger machine with nobody in between: its statements, one after the other, leave exactly what
 * creating the entries one by one does, so what is proved about every interleaving is about the batched create too.
 */
module LedgerBatch {
  import opened Wrappers
  import opened Domain
  import opened EffectiveRates
  import opened CreateBatch
  import opened Ledger
  import opened LedgerConservation
  import opened LedgerEffects
  import opened LedgerServices

  function Executes(t: TxnId, n: nat): seq<Event> { if n == 0 then [] else Executes(t, n - 1) + [Execute(t)] }

  /** One statement per row and one per account, between BEGIN and COMMIT. */
  function BatchAlone(t: TxnId, p: Program): seq<Event>
    requires p.CreateMany?
  {
    [Begin(t, p)] + Executes(t, |p.entries| + |AccountsIn(p.entries)|) + [Commit(t)]
  }

  lemma {:induction false} ExecGrows(env: Env, s: State, es: seq<Event>, e: Event)
    ensures Exec(env, s, es + [e]) == Step(env, Exec(env, s, es), e)
    decreases |es|
  {
    if es == [] {
      assert (es + [e])[1..] == [];
    } else {
      assert (es + [e])[1..] == es[1..] + [e];
      ExecGrows(env, Step(env, s, es[0]), es[1..], e);
    }
  }

  /** The instruments the lookup finds are the rows the foreign key refers to. */
  ghost predicate OneInstrumentTable(env: Env) {
    forall symbol :: symbol in env.ref.instruments ==> env.ref.instruments[symbol] in env.instrumentIds
  }

  lemma {:induction false} IncrementsAt(es: seq<Entry>, accounts: seq<AccountId>)
    ensures |Increments(es, accounts)| == |accounts|
    ensures forall i :: 0 <= i < |accounts| ==> Increments(es, accounts)[i] == Increment(accounts[i], SignedSum(es, accounts[i]))
    decreases |accounts|
  {
    if accounts != [] {
      IncrementsAt(es, accounts[1..]);
    }
  }

  // ----- the inserts -----

  /** The transaction once k rows are in. */
  function AfterInserts(env: Env, p: Program, k: nat): Txn
    requires p.CreateMany? && |p.ids| == |p.entries| && RatesKnown(env, p.entries)
    requires k <= |BatchPlan(env, p.entries, p.ids)| && k <= |p.entries|
  {
    Txn(p, BatchPlan(env, p.entries, p.ids)[k..], map[], NewRows(env.ref, p.entries[..k], p.ids[..k]), [])
  }

  ghost predicate Startable(env: Env, s: State, p: Program) {
    && s == AtRestWith(s.accounts, s.rows, s.jobs)
    && p.CreateMany? && |p.ids| == |p.entries| && OneInstrumentTable(env)
    && AllResolvable(env, s, p.user, p.entries) && RatesKnown(env, p.entries)
    && |BatchPlan(env, p.entries, p.ids)| == |p.entries| + |AccountsIn(p.entries)|
  }

  lemma ResolvableStarts(env: Env, s: State, p: Program)
    requires s == AtRestWith(s.accounts, s.rows, s.jobs) && p.CreateMany? && |p.ids| == |p.entries|
    requires OneInstrumentTable(env) && AllResolvable(env, s, p.user, p.entries)
    ensures Startable(env, s, p)
  {
    assert RatesKnown(env, p.entries);
    InsertsAt(env, p.entries, p.ids);
    IncrementsAt(p.entries, AccountsIn(p.entries));
  }

  ghost predicate GoodSoFar(env: Env, s: State, p: Program, k: nat)
    requires p.CreateMany? && k <= |p.entries| == |p.ids|
  {
    AllAcceptable(env.ref, s.accounts, p.user, p.entries[..k]) && FreshIds(s.rows, p.ids[..k])
  }

  function InsertPhaseEnd(env: Env, s: State, t: TxnId, p: Program, k: nat, good: bool): State
    requires p.CreateMany? && |p.ids| == |p.entries| && RatesKnown(env, p.entries)
    requires k <= |BatchPlan(env, p.entries, p.ids)| && k <= |p.entries|
  {
    if good then One(s, t, AfterInserts(env, p, k)) else RolledBackTo(s, t, p, ConstraintViolated)
  }

  lemma GoodGrows(env: Env, s: State, p: Program, k: nat)
    requires Startable(env, s, p) && k < |p.entries| && GoodSoFar(env, s, p, k)
    ensures
      var id, row := p.ids[k], RowAt(env, p.entries, k);
      GoodSoFar(env, s, p, k + 1) <==>
        id !in s.rows && id !in NewRows(env.ref, p.entries[..k], p.ids[..k]) && ChecksHold(row)
  {
    var es, ids := p.entries[..k + 1], p.ids[..k + 1];
    assert es[..k] == p.entries[..k] && ids[..k] == p.ids[..k];
    AcceptableGrows(env.ref, s.accounts, p.user, es);
    FreshIdsGrow(s.rows, ids);
    NewRowsAreTheIds(env.ref, p.entries[..k], p.ids[..k], p.ids[k]);
    assert Resolvable(env, s.accounts, p.user, p.entries[k]);
  }

  lemma BadStaysBad(env: Env, s: State, p: Program, k: nat)
    requires Startable(env, s, p) && k < |p.entries| && GoodSoFar(env, s, p, k + 1)
    ensures GoodSoFar(env, s, p, k)
  {
    var es, ids := p.entries[..k + 1], p.ids[..k + 1];
    assert es[..k] == p.entries[..k] && ids[..k] == p.ids[..k];
    AcceptableGrows(env.ref, s.accounts, p.user, es);
    FreshIdsGrow(s.rows, ids);
  }

  lemma RowFits(env: Env, s: State, p: Program, k: nat)
    requires Startable(env, s, p) && k < |p.entries|
    ensures
      var row := RowAt(env, p.entries, k);
      AccountMatches(s.accounts, row) && (row.instrument.Some? ==> row.instrument.value in env.instrumentIds)
  {
    assert Resolvable(env, s.accounts, p.user, p.entries[k]);
  }

  lemma NextRow(env: Env, p: Program, k: nat)
    requires p.CreateMany? && |p.ids| == |p.entries| && RatesKnown(env, p.entries) && k < |p.entries|
    ensures NewRows(env.ref, p.entries[..k + 1], p.ids[..k + 1]) ==
      NewRows(env.ref, p.entries[..k], p.ids[..k])[p.ids[k] := RowAt(env, p.entries, k)]
  {
    assert p.entries[..k + 1][..k] == p.entries[..k] && p.ids[..k + 1][..k] == p.ids[..k];
  }

  lemma PlanAtInsert(env: Env, p: Program, k: nat)
    requires p.CreateMany? && |p.ids| == |p.entries| && RatesKnown(env, p.entries) && k < |p.entries|
    ensures
      var plan := BatchPlan(env, p.entries, p.ids);
      && k < |plan| && plan[k..][0] == Insert(p.ids[k], RowAt(env, p.entries, k)) && plan[k..][1..] == plan[k + 1..]
  {
    InsertsAt(env, p.entries, p.ids);
  }

  lemma InsertOne(env: Env, s: State, t: TxnId, p: Program, k: nat)
    requires Startable(env, s, p) && k < |p.entries| && GoodSoFar(env, s, p, k)
    ensures Step(env, One(s, t, AfterInserts(env, p, k)), Execute(t)) ==
      InsertPhaseEnd(env, s, t, p, k + 1, GoodSoFar(env, s, p, k + 1))
  {
    var x := AfterInserts(env, p, k);
    PlanAtInsert(env, p, k);
    ExecuteAlone(env, s, t, x);
    FreeAlone(s, t, x, 0, p.ids[k]);
    GoodGrows(env, s, p, k);
    RowFits(env, s, p, k);
    NextRow(env, p, k);
  }

  /** One statement more, whether or not the transaction is still alive. */
  lemma InsertNext(env: Env, s: State, t: TxnId, p: Program, k: nat)
    requires Startable(env, s, p) && k < |p.entries|
    ensures Step(env, InsertPhaseEnd(env, s, t, p, k, GoodSoFar(env, s, p, k)), Execute(t)) ==
      InsertPhaseEnd(env, s, t, p, k + 1, GoodSoFar(env, s, p, k + 1))
  {
    if GoodSoFar(env, s, p, k) {
      InsertOne(env, s, t, p, k);
    } else {
      if GoodSoFar(env, s, p, k + 1) { BadStaysBad(env, s, p, k); }
      OverIsOver(env, s, t, p, ConstraintViolated);
    }
  }

  /** A path of states, one Execute apart. */
  ghost predicate Path(env: Env, t: TxnId, states: seq<State>) {
    states != [] && forall i: nat :: i + 1 < |states| ==> Step(env, states[i], Execute(t)) == states[i + 1]
  }

  lemma {:induction false} ExecutesFollow(env: Env, t: TxnId, states: seq<State>)
    requires Path(env, t, states)
    ensures Exec(env, states[0], Executes(t, |states| - 1)) == states[|states| - 1]
    decreases |states|
  {
    var n := |states| - 1;
    if n > 0 {
      ExecutesFollow(env, t, states[..n]);
      ExecGrows(env, states[0], Executes(t, n - 1), Execute(t));
      assert Step(env, states[n - 1], Execute(t)) == states[n - 1 + 1];
    }
  }

  ghost function InsertState(env: Env, s: State, t: TxnId, p: Program, k: nat): State
    requires Startable(env, s, p) && k <= |p.entries|
  {
    InsertPhaseEnd(env, s, t, p, k, GoodSoFar(env, s, p, k))
  }

  // ----- the increments -----

  /** The first m accounts of a list. */
  function Firsts(list: seq<AccountId>, m: nat): set<AccountId>
    requires m <= |list|
  {
    set i | 0 <= i < m :: list[i]
  }

  function Restrict<K, V>(m: map<K, V>, done: set<K>): map<K, V> { map k | k in done && k in m :: m[k] }

  lemma RestrictGrows<K, V>(m: map<K, V>, done: set<K>, k: K)
    requires k in m
    ensures Restrict(m, done)[k := m[k]] == Restrict(m, done + {k})
  {
  }

  /** Every balance once the batch is credited. */
  function Credited(s: State, es: seq<Entry>): map<AccountId, int> {
    map a | a in s.accounts :: s.accounts[a].balance + SignedSum(es, a)
  }

  function Totals(s: State, es: seq<Entry>, done: set<AccountId>): map<AccountId, int> { Restrict(Credited(s, es), done) }

  lemma {:induction false} AccountsAreThere(env: Env, s: State, user: UserId, es: seq<Entry>)
    requires AllResolvable(env, s, user, es)
    ensures forall i :: 0 <= i < |AccountsIn(es)| ==> AccountsIn(es)[i] in s.accounts
    decreases |es|
  {
    if es != [] {
      var n := |es| - 1;
      assert Resolvable(env, s.accounts, user, es[n]);
      AccountsAreThere(env, s, user, es[..n]);
    }
  }

  ghost predicate AccountsKnown(s: State, p: Program)
    requires p.CreateMany?
  {
    forall i :: 0 <= i < |AccountsIn(p.entries)| ==> AccountsIn(p.entries)[i] in s.accounts
  }

  /** The transaction once all rows and the first m balances are in. */
  ghost function AfterIncrements(env: Env, s: State, p: Program, m: nat): Txn
    requires Startable(env, s, p) && AccountsKnown(s, p) && m <= |AccountsIn(p.entries)|
  {
    Txn(p, BatchPlan(env, p.entries, p.ids)[|p.entries| + m..], Totals(s, p.entries, Firsts(AccountsIn(p.entries), m)),
        NewRows(env.ref, p.entries, p.ids), [])
  }

  lemma PlanAtIncrement(env: Env, p: Program, m: nat)
    requires p.CreateMany? && |p.ids| == |p.entries| && RatesKnown(env, p.entries) && m < |AccountsIn(p.entries)|
    ensures
      var plan, n, a := BatchPlan(env, p.entries, p.ids), |p.entries| + m, AccountsIn(p.entries)[m];
      n < |plan| && plan[n..][0] == Increment(a, SignedSum(p.entries, a)) && plan[n..][1..] == plan[n + 1..]
  {
    InsertsAt(env, p.entries, p.ids);
    IncrementsAt(p.entries, AccountsIn(p.entries));
  }

  lemma RunIncrement(env: Env, s: State, t: TxnId, x: Txn, a: AccountId, delta: int)
    requires s == AtRestWith(s.accounts, s.rows, s.jobs) && x.plan != [] && x.plan[0] == Increment(a, delta) && a in s.accounts
    ensures Step(env, One(s, t, x), Execute(t)) ==
      One(s, t, x.(plan := x.plan[1..], balances := x.balances[a := Balance(s, x, a) + delta]))
  {
    ExecuteAlone(env, s, t, x);
    FreeAlone(s, t, x, a, 0);
  }

  lemma FirstsGrow(list: seq<AccountId>, m: nat)
    requires m < |list| && forall i, j :: 0 <= i < j < |list| ==> list[i] != list[j]
    ensures list[m] !in Firsts(list, m) && Firsts(list, m + 1) == Firsts(list, m) + {list[m]}
  {
  }

  lemma NextIncrement(env: Env, s: State, p: Program, m: nat)
    requires Startable(env, s, p) && AccountsKnown(s, p) && m < |AccountsIn(p.entries)|
    ensures
      var a, x := AccountsIn(p.entries)[m], AfterIncrements(env, s, p, m);
      && x.plan != [] && x.plan[0] == Increment(a, SignedSum(p.entries, a)) && a !in x.balances
      && AfterIncrements(env, s, p, m + 1) ==
           x.(plan := x.plan[1..], balances := x.balances[a := s.accounts[a].balance + SignedSum(p.entries, a)])
  {
    PlanAtIncrement(env, p, m);
    NextTotals(s, p, m);
  }

  lemma NextTotals(s: State, p: Program, m: nat)
    requires p.CreateMany? && AccountsKnown(s, p) && m < |AccountsIn(p.entries)|
    ensures
      var list := AccountsIn(p.entries);
      var a, before := list[m], Totals(s, p.entries, Firsts(list, m));
      && a !in before
      && before[a := s.accounts[a].balance + SignedSum(p.entries, a)] == Totals(s, p.entries, Firsts(list, m + 1))
  {
    var list := AccountsIn(p.entries);
    AccountsInAre(p.entries, list[m]);
    FirstsGrow(list, m);
    RestrictGrows(Credited(s, p.entries), Firsts(list, m), list[m]);
  }

  lemma IncrementOne(env: Env, s: State, t: TxnId, p: Program, m: nat)
    requires Startable(env, s, p) && AccountsKnown(s, p) && m < |AccountsIn(p.entries)|
    ensures Step(env, One(s, t, AfterIncrements(env, s, p, m)), Execute(t)) == One(s, t, AfterIncrements(env, s, p, m + 1))
  {
    var a := AccountsIn(p.entries)[m];
    NextIncrement(env, s, p, m);
    RunIncrement(env, s, t, AfterIncrements(env, s, p, m), a, SignedSum(p.entries, a));
  }

  lemma NoIncrementsYet(env: Env, s: State, p: Program)
    requires Startable(env, s, p) && AccountsKnown(s, p)
    ensures AfterIncrements(env, s, p, 0) == AfterInserts(env, p, |p.entries|)
  {
    var n := |p.entries|;
    assert p.entries[..n] == p.entries && p.ids[..n] == p.ids;
    assert Firsts(AccountsIn(p.entries), 0) == {};
  }

  // ----- all statements -----

  /** After i statements: rows, then balances, or a rollback from the first row the schema refuses. */
  ghost function BatchState(env: Env, s: State, t: TxnId, p: Program, i: nat): State
    requires Startable(env, s, p) && AccountsKnown(s, p) && i <= |p.entries| + |AccountsIn(p.entries)|
  {
    if i <= |p.entries| then InsertState(env, s, t, p, i)
    else if GoodSoFar(env, s, p, |p.entries|) then One(s, t, AfterIncrements(env, s, p, i - |p.entries|))
    else RolledBackTo(s, t, p, ConstraintViolated)
  }

  lemma BatchAtIncrement(env: Env, s: State, t: TxnId, p: Program, i: nat)
    requires Startable(env, s, p) && AccountsKnown(s, p) && |p.entries| <= i <= |p.entries| + |AccountsIn(p.entries)|
    ensures BatchState(env, s, t, p, i) ==
      if GoodSoFar(env, s, p, |p.entries|) then One(s, t, AfterIncrements(env, s, p, i - |p.entries|))
      else RolledBackTo(s, t, p, ConstraintViolated)
  {
    if i == |p.entries| { NoIncrementsYet(env, s, p); }
  }

  lemma BatchNext(env: Env, s: State, t: TxnId, p: Program, i: nat)
    requires Startable(env, s, p) && AccountsKnown(s, p) && i < |p.entries| + |AccountsIn(p.entries)|
    ensures Step(env, BatchState(env, s, t, p, i), Execute(t)) == BatchState(env, s, t, p, i + 1)
  {
    if i < |p.entries| {
      InsertNext(env, s, t, p, i);
    } else {
      BatchAtIncrement(env, s, t, p, i);
      if GoodSoFar(env, s, p, |p.entries|) {
        IncrementOne(env, s, t, p, i - |p.entries|);
      } else {
        OverIsOver(env, s, t, p, ConstraintViolated);
      }
    }
  }

  lemma BatchRuns(env: Env, s: State, t: TxnId, p: Program)
    requires Startable(env, s, p) && AccountsKnown(s, p)
    ensures
      var n := |p.entries| + |AccountsIn(p.entries)|;
      Exec(env, One(s, t, AfterInserts(env, p, 0)), Executes(t, n)) == BatchState(env, s, t, p, n)
  {
    var n := |p.entries| + |AccountsIn(p.entries)|;
    var states := seq(n + 1, i requires 0 <= i <= n => BatchState(env, s, t, p, i));
    forall i: nat | i + 1 < |states| ensures Step(env, states[i], Execute(t)) == states[i + 1] { BatchNext(env, s, t, p, i); }
    assert GoodSoFar(env, s, p, 0);
    ExecutesFollow(env, t, states);
  }

  // ----- the whole transaction -----

  lemma {:induction false} OverForever(env: Env, s: State, t: TxnId, p: Program, reason: Reason, n: nat)
    requires s == AtRestWith(s.accounts, s.rows, s.jobs)
    ensures Exec(env, RolledBackTo(s, t, p, reason), Executes(t, n)) == RolledBackTo(s, t, p, reason)
  {
    OverIsOver(env, s, t, p, reason);
    if n > 0 {
      OverForever(env, s, t, p, reason, n - 1);
      ExecGrows(env, RolledBackTo(s, t, p, reason), Executes(t, n - 1), Execute(t));
    }
  }

  lemma BalanceIsCredited(env: Env, s: State, p: Program, a: AccountId)
    requires Startable(env, s, p) && AccountsKnown(s, p) && a in s.accounts
    ensures Balance(s, AfterIncrements(env, s, p, |AccountsIn(p.entries)|), a) == s.accounts[a].balance + SignedSum(p.entries, a)
  {
    var list := AccountsIn(p.entries);
    assert a in Firsts(list, |list|) <==> a in list;
    AccountsInAre(p.entries, a);
  }

  function CommittedBatch(env: Env, s: State, t: TxnId, p: Program): State
    requires p.CreateMany? && |p.ids| == |p.entries| && RatesKnown(env, p.entries)
  {
    State(Credit(s.accounts, p.entries), s.rows + NewRows(env.ref, p.entries, p.ids), s.jobs, map[], map[t := Committed(p)])
  }

  lemma CommittedIsCredit(env: Env, s: State, t: TxnId, p: Program)
    requires Startable(env, s, p) && AccountsKnown(s, p)
    ensures Step(env, One(s, t, AfterIncrements(env, s, p, |AccountsIn(p.entries)|)), Commit(t)) == CommittedBatch(env, s, t, p)
  {
    var list := AccountsIn(p.entries);
    var x := AfterIncrements(env, s, p, |list|);
    CommitAlone(env, s, t, x);
    forall a | a in s.accounts ensures Balance(s, x, a) == s.accounts[a].balance + SignedSum(p.entries, a) {
      BalanceIsCredited(env, s, p, a);
    }
    BalancesAreCredit(s, x, p.entries);
  }

  lemma BalancesAreCredit(s: State, x: Txn, es: seq<Entry>)
    requires forall a :: a in s.accounts ==> Balance(s, x, a) == s.accounts[a].balance + SignedSum(es, a)
    ensures (map a | a in s.accounts :: s.accounts[a].(balance := Balance(s, x, a))) == Credit(s.accounts, es)
  {
  }

  lemma BatchAloneIs(env: Env, s: State, t: TxnId, p: Program)
    requires p.CreateMany?
    ensures Exec(env, s, BatchAlone(t, p)) ==
      Step(env, Exec(env, Step(env, s, Begin(t, p)), Executes(t, |p.entries| + |AccountsIn(p.entries)|)), Commit(t))
  {
    var middle := Executes(t, |p.entries| + |AccountsIn(p.entries)|);
    ExecGrows(env, s, [Begin(t, p)] + middle, Commit(t));
    assert ([Begin(t, p)] + middle)[1..] == middle;
  }

  lemma BeginsAtTheTop(env: Env, s: State, t: TxnId, p: Program)
    requires Startable(env, s, p)
    ensures Step(env, s, Begin(t, p)) == One(s, t, AfterInserts(env, p, 0))
  {
    BeginAlone(env, s, t, p);
    StartsAtTheTop(env, s, p);
  }

  lemma GoodBatchCommits(env: Env, s: State, t: TxnId, p: Program)
    requires Startable(env, s, p) && GoodSoFar(env, s, p, |p.entries|)
    ensures Exec(env, s, BatchAlone(t, p)) == CommittedBatch(env, s, t, p)
  {
    BatchAloneIs(env, s, t, p);
    BeginsAtTheTop(env, s, t, p);
    AccountsAreThere(env, s, p.user, p.entries);
    BatchRuns(env, s, t, p);
    BatchAtIncrement(env, s, t, p, |p.entries| + |AccountsIn(p.entries)|);
    CommittedIsCredit(env, s, t, p);
  }

  lemma StartsAtTheTop(env: Env, s: State, p: Program)
    requires Startable(env, s, p)
    ensures Plan(env, s.accounts, p) == Ok(BatchPlan(env, p.entries, p.ids))
    ensures Txn(p, BatchPlan(env, p.entries, p.ids), map[], map[], []) == AfterInserts(env, p, 0)
  {
    var plan := BatchPlan(env, p.entries, p.ids);
    assert plan[0..] == plan;
  }

  lemma BadBatchRollsBack(env: Env, s: State, t: TxnId, p: Program)
    requires Startable(env, s, p) && !GoodSoFar(env, s, p, |p.entries|)
    ensures Exec(env, s, BatchAlone(t, p)) == RolledBackTo(s, t, p, ConstraintViolated)
  {
    BatchAloneIs(env, s, t, p);
    BeginsAtTheTop(env, s, t, p);
    AccountsAreThere(env, s, p.user, p.entries);
    BatchRuns(env, s, t, p);
    BatchAtIncrement(env, s, t, p, |p.entries| + |AccountsIn(p.entries)|);
    OverIsOver(env, s, t, p, ConstraintViolated);
  }

  /**
   * The batch alone: the machine's statements commit exactly when creating the entries one by one succeeds, and then
   * leave the same accounts and rows; otherwise they roll back and leave nothing.
   */
  lemma BatchIsTheMachine(env: Env, s: State, t: TxnId, user: UserId, es: seq<Entry>, ids: seq<RowId>)
    requires s == AtRestWith(s.accounts, s.rows, s.jobs) && |ids| == |es| && OneInstrumentTable(env)
    ensures
      var p := CreateMany(user, es, ids);
      var each := CreateEach(env.ref, Db(s.accounts, s.rows), user, es, ids);
      Exec(env, s, BatchAlone(t, p)) ==
        if each.Ok? then State(each.value.accounts, each.value.rows, s.jobs, map[], map[t := Committed(p)])
        else RolledBackTo(s, t, p, if AllResolvable(env, s, user, es) then ConstraintViolated else BadEntry)
  {
    var p := CreateMany(user, es, ids);
    CreateEachIs(env.ref, Db(s.accounts, s.rows), user, es, ids);
    if AllResolvable(env, s, user, es) {
      ResolvableStarts(env, s, p);
      assert es[..|es|] == es && ids[..|es|] == ids;
      if GoodSoFar(env, s, p, |es|) { GoodBatchCommits(env, s, t, p); } else { BadBatchRollsBack(env, s, t, p); }
    } else {
      UnresolvableIsRefused(env, s, user, es);
      UnresolvableRollsBack(env, s, t, p);
    }
  }

  lemma UnresolvableRollsBack(env: Env, s: State, t: TxnId, p: Program)
    requires s == AtRestWith(s.accounts, s.rows, s.jobs) && p.CreateMany? && !AllResolvable(env, s, p.user, p.entries)
    ensures Exec(env, s, BatchAlone(t, p)) == RolledBackTo(s, t, p, BadEntry)
  {
    BatchAloneIs(env, s, t, p);
    BeginAlone(env, s, t, p);
    OverForever(env, s, t, p, BadEntry, |p.entries| + |AccountsIn(p.entries)|);
    OverIsOver(env, s, t, p, BadEntry);
  }

  lemma UnresolvableIsRefused(env: Env, s: State, user: UserId, es: seq<Entry>)
    requires !AllResolvable(env, s, user, es)
    ensures !AllAcceptable(env.ref, s.accounts, user, es)
  {
    var i :| 0 <= i < |es| && !Resolvable(env, s.accounts, user, es[i]);
    assert !Acceptable(env.ref, s.accounts, user, es[i]);
  }
}

/**
 * Conservation: in every state of every interleaving, aborts included, the committed balance of each account is its
 * opening balance plus the signed amounts of its posted rows.
 */
module LedgerConservation {
  import opened Domain
  import opened EffectiveRates
  import opened CreateBatch
  import opened Sums
  import opened Ledger

  // ----- sums over row tables -----

  function BookedMap(rows: map<RowId, Row>, a: AccountId): map<RowId, int> {
    map id | id in rows :: Booked(rows[id], a)
  }

  /** The signed amounts of the posted rows of account `a`. */
  ghost function PostedSum(rows: map<RowId, Row>, a: AccountId): int {
    SumMap(BookedMap(rows, a))
  }

  /** What each row counts for: its amount, if it is posted on account `a` and of one of the kinds. */
  function Amounts(rows: map<RowId, Row>, a: AccountId, kinds: set<TransactionType>): map<RowId, int> {
    map id | id in rows ::
      if rows[id].account == a && rows[id].status == Posted && rows[id].kind in kinds then rows[id].amount else 0
  }

  /** The amounts of the posted rows of some kinds on account `a`. */
  ghost function PostedTotal(rows: map<RowId, Row>, a: AccountId, kinds: set<TransactionType>): int {
    SumMap(Amounts(rows, a, kinds))
  }

  /** The signed sum is what came in minus what went out. */
  lemma PostedSumIsInMinusOut(rows: map<RowId, Row>, a: AccountId)
    ensures PostedSum(rows, a) ==
      PostedTotal(rows, a, {Income, TransferIn, Sell}) - PostedTotal(rows, a, {Expense, TransferOut, Buy})
  {
    var x, y := Amounts(rows, a, {Income, TransferIn, Sell}), Amounts(rows, a, {Expense, TransferOut, Buy});
    forall id | id in rows ensures BookedMap(rows, a)[id] == x[id] - y[id] {}
    SumMapDifference(BookedMap(rows, a), x, y);
  }

  /** What a write set changes about the booked sum of the committed table. */
  ghost function Gain(rows: map<RowId, Row>, writes: map<RowId, Row>, a: AccountId): int {
    SumMap(Gains(BookedMap(rows, a), BookedMap(writes, a)))
  }

  lemma GainOfWrite(rows: map<RowId, Row>, writes: map<RowId, Row>, id: RowId, row: Row, a: AccountId)
    ensures Gain(rows, writes[id := row], a) == Gain(rows, writes, a) + Booked(row, a) -
      if id in writes then Booked(writes[id], a) else if id in rows then Booked(rows[id], a) else 0
  {
    var base, w := BookedMap(rows, a), BookedMap(writes, a);
    var g := Booked(row, a) - if id in rows then Booked(rows[id], a) else 0;
    assert BookedMap(writes[id := row], a) == w[id := Booked(row, a)];
    assert Gains(base, w[id := Booked(row, a)]) == Gains(base, w)[id := g];
    SumMapSet(Gains(base, w), id, g);
  }

  /** Merging a write set into the table moves the booked sum by exactly its gain. */
  lemma MergeMovesByGain(rows: map<RowId, Row>, writes: map<RowId, Row>, a: AccountId)
    ensures PostedSum(rows + writes, a) == PostedSum(rows, a) + Gain(rows, writes, a)
  {
    assert BookedMap(rows + writes, a) == BookedMap(rows, a) + BookedMap(writes, a);
    SumMapMerge(BookedMap(rows, a), BookedMap(writes, a));
  }

  /** The gain of a write set depends only on the rows it writes. */
  lemma GainIsLocal(rows: map<RowId, Row>, rows': map<RowId, Row>, writes: map<RowId, Row>, a: AccountId)
    requires forall id :: id in writes ==> (id in rows <==> id in rows') && (id in rows ==> rows[id] == rows'[id])
    ensures Gain(rows, writes, a) == Gain(rows', writes, a)
  {
    assert Gains(BookedMap(rows, a), BookedMap(writes, a)) == Gains(BookedMap(rows', a), BookedMap(writes, a));
  }

  // ----- what is left to do -----

  /** The effect of a statement still to run: on the balance minus on the rows of account `a`. */
  function Imbalance(stmt: Stmt, a: AccountId): int {
    match stmt
    case Insert(_, row) => -Booked(row, a)
    case Increment(account, delta) => if account == a then delta else 0
    case Debit(_, _) => 0
    case LockOrder(_, _, _) => 0
    case SetStatus(_, before, target) => Booked(before, a) - Booked(before.(status := target), a)
    case Enqueue(_) => 0
  }

  function Remaining(plan: seq<Stmt>, a: AccountId): int {
    if plan == [] then 0 else Imbalance(plan[0], a) + Remaining(plan[1..], a)
  }

  lemma {:induction false} RemainingAppend(p: seq<Stmt>, q: seq<Stmt>, a: AccountId)
    ensures Remaining(p + q, a) == Remaining(p, a) + Remaining(q, a)
  {
    if p == [] {
      assert p + q == q;
    } else {
      assert (p + q)[1..] == p[1..] + q;
      RemainingAppend(p[1..], q, a);
    }
  }

  // ----- a batch is balanced: the delta map equals the booked sums of its rows -----

  lemma {:induction false} InsertsBook(ref: Reference, es: seq<Entry>, ids: seq<RowId>, a: AccountId)
    requires |ids| == |es|
    requires forall i :: 0 <= i < |es| ==> EffectiveRate(ref.rates, PairOf(es[i])).Ok?
    ensures Remaining(Inserts(ref, es, ids), a) == -SignedSum(es, a)
    decreases |es|
  {
    if es != [] {
      var n := |es| - 1;
      InsertsBook(ref, es[..n], ids[..n], a);
      var last := Insert(ids[n], RowOf(ref, es[n], EffectiveRate(ref.rates, PairOf(es[n])).value));
      RemainingAppend(Inserts(ref, es[..n], ids[..n]), [last], a);
      assert Remaining([last], a) == Imbalance(last, a) + Remaining([last][1..], a);
    }
  }

  lemma {:induction false} IncrementsPay(es: seq<Entry>, accounts: seq<AccountId>, a: AccountId)
    requires forall i, j :: 0 <= i < j < |accounts| ==> accounts[i] != accounts[j]
    ensures Remaining(Increments(es, accounts), a) == if a in accounts then SignedSum(es, a) else 0
  {
    if accounts != [] {
      IncrementsPay(es, accounts[1..], a);
      var head := Increment(accounts[0], SignedSum(es, accounts[0]));
      assert Increments(es, accounts)[1..] == Increments(es, accounts[1..]);
      assert accounts == [accounts[0]] + accounts[1..];
    }
  }

  lemma {:induction false} AccountsInAre(es: seq<Entry>, a: AccountId)
    ensures
      var list := AccountsIn(es);
      && (forall i, j :: 0 <= i < j < |list| ==> list[i] != list[j])
      && (a !in list ==> SignedSum(es, a) == 0)
  {
    if es != [] {
      AccountsInAre(es[..|es| - 1], a);
    }
  }

  lemma BatchIsBalanced(ref: Reference, es: seq<Entry>, ids: seq<RowId>, a: AccountId)
    requires |ids| == |es| && forall i :: 0 <= i < |es| ==> EffectiveRate(ref.rates, PairOf(es[i])).Ok?
    ensures Remaining(Inserts(ref, es, ids) + Increments(es, AccountsIn(es)), a) == 0
  {
    var list := AccountsIn(es);
    InsertsBook(ref, es, ids, a);
    AccountsInAre(es, a);
    assert forall i, j :: 0 <= i < j < |list| ==> list[i] != list[j];
    IncrementsPay(es, list, a);
    RemainingAppend(Inserts(ref, es, ids), Increments(es, list), a);
  }

  lemma PlansAreBalanced(env: Env, accounts: map<AccountId, Account>, p: Program, a: AccountId)
    requires Plan(env, accounts, p).Ok?
    ensures Remaining(Plan(env, accounts, p).value, a) == 0
  {
    match p
    case CreateMany(user, es, ids) => BatchIsBalanced(env.ref, es, ids, a);
    case ChangeStatus(order, status, user) =>
      var plan := [LockOrder(order, status, user)];
      assert plan[1..] == [];
    case PlaceOrder(request, order) =>
      var plan := [Debit(request, order)];
      assert plan[1..] == [];
  }

  lemma RemainingOfTwo(p: Stmt, q: Stmt, a: AccountId)
    ensures Remaining([p], a) == Imbalance(p, a)
    ensures Remaining([p, q], a) == Imbalance(p, a) + Imbalance(q, a)
  {
    assert [p][1..] == [];
    assert [q][1..] == [];
    assert [p, q][1..] == [q];
  }

  lemma StatusPlanIsBalanced(id: RowId, row: Row, target: Status, a: AccountId)
    ensures Remaining(StatusPlan(id, row, target), a) == 0
  {
    var booked := Sign(row.kind) * row.amount;
    var set_ := SetStatus(id, row, target);
    var pay := Increment(row.account, if target == Posted then booked else -booked);
    RemainingOfTwo(set_, pay, a);
  }

  // ----- the invariant -----

  /** What transaction `x` has already done to account `a`: the balance moved minus the booked rows moved. */
  ghost function Drift(s: State, x: Txn, a: AccountId): int
    requires a in s.accounts
  {
    Balance(s, x, a) - s.accounts[a].balance - Gain(s.rows, x.rows, a)
  }

  /** Done plus still to do cancels out. */
  ghost predicate Even(s: State, x: Txn, a: AccountId)
    requires a in s.accounts
  {
    Drift(s, x, a) + Remaining(x.plan, a) == 0
  }

  /** A row is locked before its status is set; a lock or a debit comes first and alone. */
  ghost predicate Shaped(x: Txn) {
    && (forall k :: 0 <= k < |x.plan| && x.plan[k].SetStatus? ==>
          k == 0 && x.plan[k].id in x.rows && x.rows[x.plan[k].id] == x.plan[k].before)
    && (forall k :: 0 <= k < |x.plan| && (x.plan[k].LockOrder? || x.plan[k].Debit?) ==>
          |x.plan| == 1 && x.rows == map[] && x.balances == map[])
  }

  ghost predicate OnTrack(s: State, x: Txn) {
    Shaped(x) && forall a :: a in s.accounts ==> Even(s, x, a)
  }

  /** No account and no row is in two write sets. */
  ghost predicate LocksExclude(s: State) {
    forall t, u :: t in s.txns && u in s.txns && t != u ==>
      s.txns[t].balances.Keys !! s.txns[u].balances.Keys && s.txns[t].rows.Keys !! s.txns[u].rows.Keys
  }

  ghost predicate Balanced(s: State, opening: map<AccountId, int>) {
    && s.accounts.Keys == opening.Keys
    && forall a :: a in s.accounts ==> s.accounts[a].balance == opening[a] + PostedSum(s.rows, a)
  }

  ghost predicate Inv(s: State, opening: map<AccountId, int>) {
    Balanced(s, opening) && LocksExclude(s) && forall t :: t in s.txns ==> OnTrack(s, s.txns[t])
  }

  /** A transaction that has not written anything and whose plan is balanced is on track. */
  lemma FreshIsOnTrack(env: Env, s: State, p: Program)
    requires Plan(env, s.accounts, p).Ok?
    ensures OnTrack(s, Txn(p, Plan(env, s.accounts, p).value, map[], map[], []))
  {
    var x := Txn(p, Plan(env, s.accounts, p).value, map[], map[], []);
    forall a | a in s.accounts
      ensures Even(s, x, a)
    {
      PlansAreBalanced(env, s.accounts, p, a);
      assert Gains(BookedMap(s.rows, a), BookedMap(x.rows, a)) == map[];
    }
    if p.CreateMany? { BatchPlanIsPlain(env.ref, p.entries, p.ids); }
  }

  ghost predicate Plain(plan: seq<Stmt>) {
    forall k :: 0 <= k < |plan| ==> plan[k].Insert? || plan[k].Increment?
  }

  lemma {:induction false} InsertsArePlain(ref: Reference, es: seq<Entry>, ids: seq<RowId>)
    requires |ids| == |es|
    requires forall i :: 0 <= i < |es| ==> EffectiveRate(ref.rates, PairOf(es[i])).Ok?
    ensures Plain(Inserts(ref, es, ids))
    decreases |es|
  {
    if es != [] {
      InsertsArePlain(ref, es[..|es| - 1], ids[..|es| - 1]);
    }
  }

  lemma {:induction false} IncrementsArePlain(es: seq<Entry>, accounts: seq<AccountId>)
    ensures Plain(Increments(es, accounts))
  {
    if accounts != [] {
      IncrementsArePlain(es, accounts[1..]);
    }
  }

  lemma BatchPlanIsPlain(ref: Reference, es: seq<Entry>, ids: seq<RowId>)
    requires |ids| == |es|
    requires forall i :: 0 <= i < |es| ==> EffectiveRate(ref.rates, PairOf(es[i])).Ok?
    ensures Plain(Inserts(ref, es, ids) + Increments(es, AccountsIn(es)))
  {
    InsertsArePlain(ref, es, ids);
    IncrementsArePlain(es, AccountsIn(es));
  }

  lemma WritesStayEven(env: Env, s: State, t: TxnId, a: AccountId)
    requires t in s.txns && s.txns[t].plan != [] && Run(env, s, t).Runs? && a in s.accounts
    requires Shaped(s.txns[t]) && Even(s, s.txns[t], a)
    requires var stmt := s.txns[t].plan[0]; stmt.Insert? || stmt.SetStatus? || stmt.LockOrder?
    ensures Even(s, Run(env, s, t).txn, a)
  {
    var x := s.txns[t];
    match x.plan[0]
    case Insert(id, row) =>
      GainOfWrite(s.rows, x.rows, id, row, a);
    case SetStatus(id, before, target) =>
      GainOfWrite(s.rows, x.rows, id, before.(status := target), a);
    case LockOrder(id, target, user) =>
      GainOfWrite(s.rows, x.rows, id, s.rows[id], a);
      StatusPlanIsBalanced(id, s.rows[id], target, a);
      assert x.plan[1..] == [];
  }

  lemma PaymentsStayEven(env: Env, s: State, t: TxnId, a: AccountId)
    requires t in s.txns && s.txns[t].plan != [] && Run(env, s, t).Runs? && a in s.accounts
    requires Shaped(s.txns[t]) && Even(s, s.txns[t], a)
    requires var stmt := s.txns[t].plan[0]; stmt.Increment? || stmt.Debit? || stmt.Enqueue?
    ensures Even(s, Run(env, s, t).txn, a)
  {
    var x, x' := s.txns[t], Run(env, s, t).txn;
    if x.plan[0].Debit? {
      RemainingOfTwo(x'.plan[0], x'.plan[1], a);
      assert x.plan[1..] == [];
    }
  }

  lemma RunKeepsShape(env: Env, s: State, t: TxnId)
    requires t in s.txns && s.txns[t].plan != [] && Run(env, s, t).Runs? && Shaped(s.txns[t])
    ensures Shaped(Run(env, s, t).txn)
  {
  }

  /** Each statement moves the write set by what it takes off the plan. */
  lemma RunKeepsOnTrack(env: Env, s: State, t: TxnId)
    requires t in s.txns && s.txns[t].plan != [] && OnTrack(s, s.txns[t]) && Run(env, s, t).Runs?
    ensures OnTrack(s, Run(env, s, t).txn)
  {
    RunKeepsShape(env, s, t);
    forall a | a in s.accounts
      ensures Even(s, Run(env, s, t).txn, a)
    {
      assert Even(s, s.txns[t], a);
      var stmt := s.txns[t].plan[0];
      if stmt.Insert? || stmt.SetStatus? || stmt.LockOrder? {
        WritesStayEven(env, s, t, a);
      } else {
        PaymentsStayEven(env, s, t, a);
      }
    }
  }

  /** A statement only takes accounts and rows nobody else holds. */
  lemma RunTakesFreeLocks(env: Env, s: State, t: TxnId, u: TxnId)
    requires t in s.txns && u in s.txns && t != u && s.txns[t].plan != [] && Run(env, s, t).Runs?
    requires LocksExclude(s) && Shaped(s.txns[t])
    ensures Run(env, s, t).txn.balances.Keys !! s.txns[u].balances.Keys
    ensures Run(env, s, t).txn.rows.Keys !! s.txns[u].rows.Keys
  {
  }

  /** A transaction's balance sheet only mentions the committed tables. */
  lemma SameTablesSameTrack(s: State, s': State)
    requires s.accounts == s'.accounts && s.rows == s'.rows
    ensures forall x :: OnTrack(s, x) ==> OnTrack(s', x)
  {
    forall x | OnTrack(s, x) ensures OnTrack(s', x) {
      forall a | a in s'.accounts ensures Even(s', x, a) { assert Even(s, x, a); }
    }
  }

  lemma WriteSetReplaced(s: State, t: TxnId, x: Txn, opening: map<AccountId, int>)
    requires Inv(s, opening) && OnTrack(s, x)
    requires forall u :: u in s.txns && u != t ==>
      x.balances.Keys !! s.txns[u].balances.Keys && x.rows.Keys !! s.txns[u].rows.Keys
    ensures Inv(s.(txns := s.txns[t := x]), opening)
  {
    SameTablesSameTrack(s, s.(txns := s.txns[t := x]));
  }

  /** A rollback leaves no trace in the tables. */
  lemma RollbackKeepsInv(s: State, t: TxnId, o: Outcome, opening: map<AccountId, int>)
    requires Inv(s, opening)
    ensures Inv(Finish(s, t, o), opening)
  {
    SameTablesSameTrack(s, Finish(s, t, o));
  }

  lemma BeginKeepsInv(env: Env, s: State, t: TxnId, p: Program, opening: map<AccountId, int>)
    requires Inv(s, opening)
    ensures Inv(Step(env, s, Begin(t, p)), opening)
  {
    var plan := Plan(env, s.accounts, p);
    if t !in s.txns && t !in s.outcomes {
      if plan.Ok? {
        FreshIsOnTrack(env, s, p);
        WriteSetReplaced(s, t, Txn(p, plan.value, map[], map[], []), opening);
      } else {
        SameTablesSameTrack(s, Step(env, s, Begin(t, p)));
      }
    }
  }

  lemma ExecuteKeepsInv(env: Env, s: State, t: TxnId, opening: map<AccountId, int>)
    requires Inv(s, opening)
    ensures Inv(Step(env, s, Execute(t)), opening)
  {
    if t in s.txns && s.txns[t].plan != [] {
      match Run(env, s, t)
      case Waits =>
      case Throws(reason) => RollbackKeepsInv(s, t, RolledBack(s.txns[t].program, reason), opening);
      case Runs(x) =>
        RunKeepsOnTrack(env, s, t);
        forall u | u in s.txns && u != t
          ensures x.balances.Keys !! s.txns[u].balances.Keys && x.rows.Keys !! s.txns[u].rows.Keys
        {
          RunTakesFreeLocks(env, s, t, u);
        }
        WriteSetReplaced(s, t, x, opening);
    }
  }

  /** The commit of one transaction does not move the balance sheet of another: their write sets are disjoint. */
  lemma OthersUnmoved(env: Env, s: State, t: TxnId, u: TxnId)
    requires LocksExclude(s) && t in s.txns && u in s.txns && t != u && s.txns[t].plan == [] && OnTrack(s, s.txns[u])
    ensures OnTrack(Step(env, s, Commit(t)), s.txns[u])
  {
    var s' := Step(env, s, Commit(t));
    var y := s.txns[u];
    forall a | a in s'.accounts
      ensures Even(s', y, a)
    {
      assert Even(s, y, a);
      GainIsLocal(s.rows, s'.rows, y.rows, a);
      assert Balance(s', y, a) - s'.accounts[a].balance == Balance(s, y, a) - s.accounts[a].balance;
    }
  }

  lemma CommitKeepsBalance(env: Env, s: State, t: TxnId, opening: map<AccountId, int>, a: AccountId)
    requires Balanced(s, opening) && t in s.txns && s.txns[t].plan == [] && OnTrack(s, s.txns[t]) && a in s.accounts
    ensures
      var s' := Step(env, s, Commit(t));
      a in s'.accounts && s'.accounts[a].balance == opening[a] + PostedSum(s'.rows, a)
  {
    assert Even(s, s.txns[t], a);
    MergeMovesByGain(s.rows, s.txns[t].rows, a);
  }

  lemma CommitKeepsBalanced(env: Env, s: State, t: TxnId, opening: map<AccountId, int>)
    requires Balanced(s, opening) && t in s.txns && s.txns[t].plan == [] && OnTrack(s, s.txns[t])
    ensures Balanced(Step(env, s, Commit(t)), opening)
  {
    var s' := Step(env, s, Commit(t));
    assert s'.accounts.Keys == s.accounts.Keys;
    forall a | a in s'.accounts ensures s'.accounts[a].balance == opening[a] + PostedSum(s'.rows, a) {
      CommitKeepsBalance(env, s, t, opening, a);
    }
  }

  lemma CommitKeepsLocks(env: Env, s: State, t: TxnId)
    requires LocksExclude(s) && t in s.txns && s.txns[t].plan == []
    ensures LocksExclude(Step(env, s, Commit(t))) && Step(env, s, Commit(t)).txns == s.txns - {t}
  {
  }

  lemma CommitKeepsInv(env: Env, s: State, t: TxnId, opening: map<AccountId, int>)
    requires Inv(s, opening)
    ensures Inv(Step(env, s, Commit(t)), opening)
  {
    if t in s.txns && s.txns[t].plan == [] {
      CommitKeepsBalanced(env, s, t, opening);
      CommitKeepsLocks(env, s, t);
      var s' := Step(env, s, Commit(t));
      forall u | u in s'.txns ensures OnTrack(s', s'.txns[u]) {
        OthersUnmoved(env, s, t, u);
      }
    }
  }

  lemma StepKeepsInv(env: Env, s: State, e: Event, opening: map<AccountId, int>)
    requires Inv(s, opening)
    ensures Inv(Step(env, s, e), opening)
  {
    match e
    case Begin(t, p) => BeginKeepsInv(env, s, t, p, opening);
    case Execute(t) => ExecuteKeepsInv(env, s, t, opening);
    case Commit(t) => CommitKeepsInv(env, s, t, opening);
    case Abort(t) =>
      if t in s.txns { RollbackKeepsInv(s, t, RolledBack(s.txns[t].program, ConnectionLost), opening); }
  }

  lemma {:induction false} InvAlways(env: Env, s: State, es: seq<Event>, opening: map<AccountId, int>)
    requires Inv(s, opening)
    ensures Inv(Exec(env, s, es), opening)
    decreases |es|
  {
    if es != [] {
      StepKeepsInv(env, s, es[0], opening);
      InvAlways(env, Step(env, s, es[0]), es[1..], opening);
    }
  }

  /** A database at rest: nothing is in flight. */
  ghost predicate AtRest(s: State) { s.txns == map[] }

  /** Each balance is its opening balance plus the posted money that came in, minus the posted money that went out. */
  ghost predicate Conserved(s: State, opening: map<AccountId, int>) {
    && s.accounts.Keys == opening.Keys
    && forall a :: a in s.accounts ==>
         s.accounts[a].balance == opening[a]
           + PostedTotal(s.rows, a, {Income, TransferIn, Sell}) - PostedTotal(s.rows, a, {Expense, TransferOut, Buy})
  }

  lemma ConservedIsBalanced(s: State, opening: map<AccountId, int>)
    ensures Conserved(s, opening) <==> Balanced(s, opening)
  {
    forall a | a in s.accounts
      ensures PostedSum(s.rows, a) ==
        PostedTotal(s.rows, a, {Income, TransferIn, Sell}) - PostedTotal(s.rows, a, {Expense, TransferOut, Buy})
    {
      PostedSumIsInMinusOut(s.rows, a);
    }
  }

  /**
   * Conservation over every interleaving of creates, status changes and checkouts, with rollbacks anywhere: the
   * committed balance of every account is its opening balance plus the amounts of its posted income, incoming transfers
   * and sales, minus the amounts of its posted expenses, outgoing transfers and purchases.
   */
  lemma BalancesAreConserved(env: Env, s: State, es: seq<Event>, opening: map<AccountId, int>)
    requires AtRest(s) && Conserved(s, opening)
    ensures Conserved(Exec(env, s, es), opening)
  {
    ConservedIsBalanced(s, opening);
    InvAlways(env, s, es, opening);
    ConservedIsBalanced(Exec(env, s, es), opening);
  }

  /** Every row books the same on account `a` in both tables; rows that are not there book nothing. */
  ghost predicate SameBookings(rows: map<RowId, Row>, rows': map<RowId, Row>, a: AccountId) {
    forall id :: At(BookedMap(rows, a), id) == At(BookedMap(rows', a), id)
  }

  /**
   * The balance is a function of the posted rows: however the rows got from one state to another (a chain of status
   * changes that comes back to where it started, say), equal bookings mean an equal balance.
   */
  lemma RestoredRowsRestoreTheBalance(env: Env, s: State, es: seq<Event>, fs: seq<Event>, a: AccountId)
    requires AtRest(s) && a in s.accounts
    requires SameBookings(Exec(env, s, es).rows, Exec(env, s, fs).rows, a)
    ensures
      var s1, s2 := Exec(env, s, es), Exec(env, s, fs);
      a in s1.accounts && a in s2.accounts && s1.accounts[a].balance == s2.accounts[a].balance
  {
    var opening := map b | b in s.accounts :: s.accounts[b].balance - PostedSum(s.rows, b);
    InvAlways(env, s, es, opening);
    InvAlways(env, s, fs, opening);
    SumMapEqual(BookedMap(Exec(env, s, es).rows, a), BookedMap(Exec(env, s, fs).rows, a));
  }
}

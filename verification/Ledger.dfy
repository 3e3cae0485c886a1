/**
 * The ledger under concurrency. Three kinds of transaction move `accounts.balance_cents`: batch creation, order
 * status change and guarded checkout. Each runs as a list of SQL statements against its own uncommitted write set;
 * an account or row in a write set is locked for everybody else until commit or rollback (READ COMMITTED). An event
 * sequence is an interleaving; a statement that has to wait changes nothing.
 */
module Ledger {
  import opened Wrappers
  import opened Domain
  import opened EffectiveRates
  import opened CreateBatch

  type TxnId = nat

  datatype Checkout = Checkout(account: AccountId, instrument: InstrumentId, quantity: int, unitPriceCents: int,
                               bookedAt: Moment, description: Option<string>)
  {
    function Cost(): int { unitPriceCents * quantity }
  }

  datatype Program =
    | CreateMany(user: UserId, entries: seq<Entry>, ids: seq<RowId>)
    | ChangeStatus(order: RowId, status: Status, user: UserId)
    | PlaceOrder(request: Checkout, order: RowId)

  datatype Reason =
    | BadEntry
    | OrderNotFound
    | NotOwner
    | BadQuantity
    | InsufficientFunds
    | NoSuchAccount
    | NoFxRate
    | ConstraintViolated
    | ConnectionLost

  datatype Stmt =
    | Insert(id: RowId, row: Row)
    | Increment(account: AccountId, delta: int)
    | Debit(request: Checkout, order: RowId)                  // UPDATE ... WHERE balance_cents >= cost RETURNING currency
    | LockOrder(id: RowId, target: Status, user: UserId)      // SELECT ... FOR UPDATE OF t
    | SetStatus(id: RowId, before: Row, target: Status)
    | Enqueue(order: RowId)

  datatype Txn = Txn(program: Program, plan: seq<Stmt>, balances: map<AccountId, int>, rows: map<RowId, Row>, jobs: seq<RowId>)

  datatype Outcome = Committed(program: Program) | RolledBack(program: Program, reason: Reason)

  datatype State = State(
    accounts: map<AccountId, Account>,
    rows: map<RowId, Row>,
    jobs: seq<RowId>,
    txns: map<TxnId, Txn>,
    outcomes: map<TxnId, Outcome>)

  /** What the programs read and never write: instruments, the dated rate lookup and the newest rate per currency. */
  datatype Env = Env(ref: Reference, instrumentIds: set<InstrumentId>, newestRate: string -> Option<real>)

  datatype Event =
    | Begin(t: TxnId, program: Program)
    | Execute(t: TxnId)
    | Commit(t: TxnId)
    | Abort(t: TxnId)     // a deadlock victim, a lost connection, a crash

  // ----- the programs -----

  function Inserts(ref: Reference, es: seq<Entry>, ids: seq<RowId>): seq<Stmt>
    requires |ids| == |es|
    requires forall i :: 0 <= i < |es| ==> EffectiveRate(ref.rates, PairOf(es[i])).Ok?
  {
    if es == [] then []
    else
      var n := |es| - 1;
      Inserts(ref, es[..n], ids[..n]) + [Insert(ids[n], RowOf(ref, es[n], EffectiveRate(ref.rates, PairOf(es[n])).value))]
  }

  /** The keys of the delta map, in the order they were first set. */
  function AccountsIn(es: seq<Entry>): seq<AccountId> {
    if es == [] then []
    else
      var front := AccountsIn(es[..|es| - 1]);
      var a := es[|es| - 1].account;
      if a in front then front else front + [a]
  }

  function Increments(es: seq<Entry>, accounts: seq<AccountId>): seq<Stmt> {
    if accounts == [] then [] else [Increment(accounts[0], SignedSum(es, accounts[0]))] + Increments(es, accounts[1..])
  }

  predicate Resolvable(env: Env, accounts: map<AccountId, Account>, user: UserId, e: Entry) {
    EntryProblem(accounts, user, e) == None && SymbolKnown(env.ref, e) && EffectiveRate(env.ref.rates, PairOf(e)).Ok?
  }

  /** What the program does before its first write: a rejection, or the statements to run. */
  function Plan(env: Env, accounts: map<AccountId, Account>, p: Program): Result<seq<Stmt>, Reason> {
    match p
    case CreateMany(user, es, ids) =>
      if |ids| == |es| && forall i :: 0 <= i < |es| ==> Resolvable(env, accounts, user, es[i])
      then Ok(Inserts(env.ref, es, ids) + Increments(es, AccountsIn(es)))
      else Err(BadEntry)
    case ChangeStatus(order, status, user) => Ok([LockOrder(order, status, user)])
    case PlaceOrder(request, order) => if request.quantity <= 0 then Err(BadQuantity) else Ok([Debit(request, order)])
  }

  /** The order row of a checkout, in the currency the debited account turned out to have. */
  function OrderRow(r: Checkout, currency: string, rate: real): Row {
    Row(r.account, Some(r.instrument), currency, TransactionType.Buy, Posted, r.Cost(), rate,
        Some(r.quantity * 1_000_000), Some(r.unitPriceCents as real / 100.0), r.bookedAt, r.description)
  }

  /** `resolveFxRate`. */
  function RateFor(env: Env, currency: string): Option<real> {
    if currency == BASE_CURRENCY then Some(1.0) else env.newestRate(currency)
  }

  /** What follows the row lock of a status change: crossing the `posted` line books or un-books the amount. */
  function StatusPlan(id: RowId, row: Row, target: Status): seq<Stmt> {
    var booked := Sign(row.kind) * row.amount;
    if row.status == target then []
    else if (row.status == Posted) != (target == Posted) then
      [SetStatus(id, row, target), Increment(row.account, if target == Posted then booked else -booked)]
    else [SetStatus(id, row, target)]
  }

  // ----- running a statement -----

  predicate AccountFree(s: State, t: TxnId, a: AccountId) {
    forall u :: u in s.txns && u != t ==> a !in s.txns[u].balances
  }

  predicate RowFree(s: State, t: TxnId, id: RowId) {
    forall u :: u in s.txns && u != t ==> id !in s.txns[u].rows
  }

  /** The balance this transaction sees: its own write, or the committed value. */
  function Balance(s: State, x: Txn, a: AccountId): int
    requires a in s.accounts
  {
    if a in x.balances then x.balances[a] else s.accounts[a].balance
  }

  datatype Reply = Waits | Runs(txn: Txn) | Throws(reason: Reason)

  function Run(env: Env, s: State, t: TxnId): Reply
    requires t in s.txns && s.txns[t].plan != []
  {
    var x := s.txns[t];
    var rest := x.plan[1..];
    match x.plan[0]
    case Insert(id, row) =>
      if !RowFree(s, t, id) then Waits
      else if id in s.rows || id in x.rows || !ChecksHold(row) || !AccountMatches(s.accounts, row) ||
              (row.instrument.Some? && row.instrument.value !in env.instrumentIds) then Throws(ConstraintViolated)
      else Runs(x.(plan := rest, rows := x.rows[id := row]))
    case Increment(a, delta) =>
      if a !in s.accounts then Runs(x.(plan := rest))   // the UPDATE matches no row
      else if !AccountFree(s, t, a) then Waits
      else Runs(x.(plan := rest, balances := x.balances[a := Balance(s, x, a) + delta]))
    case Debit(request, order) =>
      var a := request.account;
      if a !in s.accounts then Throws(NoSuchAccount)
      else if Balance(s, x, a) < request.Cost() then Throws(InsufficientFunds)   // no row matches: nothing to wait for
      else if !AccountFree(s, t, a) then Waits
      else if RateFor(env, s.accounts[a].currency) == None then Throws(NoFxRate)
      else
        var currency := s.accounts[a].currency;
        Runs(x.(balances := x.balances[a := Balance(s, x, a) - request.Cost()],
                plan := [Insert(order, OrderRow(request, currency, RateFor(env, currency).value)), Enqueue(order)]))
    case LockOrder(id, target, user) =>
      if id !in s.rows || s.rows[id].account !in s.accounts then Throws(OrderNotFound)   // not committed: not seen
      else if !RowFree(s, t, id) then Waits
      else if s.accounts[s.rows[id].account].user != user then Throws(NotOwner)
      else Runs(x.(rows := x.rows[id := s.rows[id]], plan := StatusPlan(id, s.rows[id], target)))
    case SetStatus(id, before, target) =>
      Runs(x.(plan := rest, rows := x.rows[id := before.(status := target)]))
    case Enqueue(order) =>
      Runs(x.(plan := rest, jobs := x.jobs + [order]))
  }

  function Finish(s: State, t: TxnId, o: Outcome): State {
    s.(txns := s.txns - {t}, outcomes := s.outcomes[t := o])
  }

  function Step(env: Env, s: State, e: Event): State {
    match e
    case Begin(t, p) =>
      if t in s.txns || t in s.outcomes then s
      else
        (match Plan(env, s.accounts, p)
         case Ok(plan) => s.(txns := s.txns[t := Txn(p, plan, map[], map[], [])])
         case Err(reason) => s.(outcomes := s.outcomes[t := RolledBack(p, reason)]))
    case Execute(t) =>
      if t !in s.txns || s.txns[t].plan == [] then s
      else
        (match Run(env, s, t)
         case Waits => s
         case Runs(x) => s.(txns := s.txns[t := x])
         case Throws(reason) => Finish(s, t, RolledBack(s.txns[t].program, reason)))
    case Commit(t) =>
      if t !in s.txns || s.txns[t].plan != [] then s
      else
        var x := s.txns[t];
        Finish(s, t, Committed(x.program)).(
          accounts := map a | a in s.accounts :: s.accounts[a].(balance := Balance(s, x, a)),
          rows := s.rows + x.rows,
          jobs := s.jobs + x.jobs)
    case Abort(t) =>
      if t !in s.txns then s else Finish(s, t, RolledBack(s.txns[t].program, ConnectionLost))
  }

  function Exec(env: Env, s: State, es: seq<Event>): State
    decreases |es|
  {
    if es == [] then s else Exec(env, Step(env, s, es[0]), es[1..])
  }
}

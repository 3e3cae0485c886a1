/**
 * `checkout` and `OrdersService.changeStatus` as the sequential code they are, over the tables they update in place.
 * Each is proved to do what the ledger machine does when the transaction's statements run with nobody in between, so
 * what is proved about every interleaving is about this code.
 */
module LedgerServices {
  import opened Wrappers
  import opened Domain
  import opened Ledger

  /** The transaction's statements, one after the other; neither program has more than three. */
  function Alone(t: TxnId, p: Program): seq<Event> { [Begin(t, p), Execute(t), Execute(t), Execute(t), Commit(t)] }

  function AtRestWith(accounts: map<AccountId, Account>, rows: map<RowId, Row>, jobs: seq<RowId>): State {
    State(accounts, rows, jobs, map[], map[])
  }

  /** The state after the five events. */
  function Solo(env: Env, s: State, t: TxnId, p: Program): State {
    Step(env, Step(env, Step(env, Step(env, Step(env, s, Begin(t, p)), Execute(t)), Execute(t)), Execute(t)), Commit(t))
  }

  lemma SoloIsExec(env: Env, s: State, t: TxnId, p: Program)
    ensures Exec(env, s, Alone(t, p)) == Solo(env, s, t, p)
  {
    var es := Alone(t, p);
    var s1 := Step(env, s, es[0]);
    var s2 := Step(env, s1, es[1]);
    var s3 := Step(env, s2, es[2]);
    var s4 := Step(env, s3, es[3]);
    assert es[1..][1..] == es[2..] && es[2..][1..] == es[3..] && es[3..][1..] == es[4..] && es[4..][1..] == [];
    assert Exec(env, s4, es[4..]) == Step(env, s4, es[4]);
    assert Exec(env, s3, es[3..]) == Exec(env, s4, es[4..]);
    assert Exec(env, s2, es[2..]) == Exec(env, s3, es[3..]);
    assert Exec(env, s1, es[1..]) == Exec(env, s2, es[2..]);
  }

  /** A checkout in one piece: what it leaves, or why it is rejected. */
  function Checked(env: Env, s: State, r: Checkout, order: RowId): Result<State, Reason> {
    if r.quantity <= 0 then Err(BadQuantity)
    else if r.account !in s.accounts then Err(NoSuchAccount)
    else if s.accounts[r.account].balance < r.Cost() then Err(InsufficientFunds)
    else if RateFor(env, s.accounts[r.account].currency) == None then Err(NoFxRate)
    else
      var account := s.accounts[r.account];
      var row := OrderRow(r, account.currency, RateFor(env, account.currency).value);
      if order in s.rows || !ChecksHold(row) || r.instrument !in env.instrumentIds then Err(ConstraintViolated)
      else Ok(AtRestWith(s.accounts[r.account := account.(balance := account.balance - r.Cost())],
                         s.rows[order := row], s.jobs + [order]))
  }

  /** A status change in one piece. */
  function Changed(s: State, order: RowId, target: Status, user: UserId): Result<State, Reason> {
    if order !in s.rows || s.rows[order].account !in s.accounts then Err(OrderNotFound)
    else if s.accounts[s.rows[order].account].user != user then Err(NotOwner)
    else
      var row := s.rows[order];
      var row' := row.(status := target);
      var account := s.accounts[row.account];
      Ok(AtRestWith(
           s.accounts[row.account :=
             account.(balance := account.balance - Booked(row, row.account) + Booked(row', row.account))],
           s.rows[order := row'], s.jobs))
  }

  /** The two ways to say what a transaction did agree. */
  ghost predicate SameEnd(s: State, f: State, t: TxnId, p: Program, r: Result<State, Reason>) {
    && f.txns == map[]
    && match r
       case Ok(after) => f == after.(outcomes := map[t := Committed(p)])
       case Err(reason) => f == s.(outcomes := map[t := RolledBack(p, reason)])
  }

  // ----- one transaction and nobody else -----

  function One(s: State, t: TxnId, x: Txn): State { s.(txns := map[t := x]) }

  function RolledBackTo(s: State, t: TxnId, p: Program, reason: Reason): State {
    s.(outcomes := map[t := RolledBack(p, reason)])
  }

  lemma BeginAlone(env: Env, s: State, t: TxnId, p: Program)
    requires s == AtRestWith(s.accounts, s.rows, s.jobs)
    ensures Step(env, s, Begin(t, p)) ==
      match Plan(env, s.accounts, p)
      case Ok(plan) => One(s, t, Txn(p, plan, map[], map[], []))
      case Err(reason) => RolledBackTo(s, t, p, reason)
  {
  }

  lemma ExecuteAlone(env: Env, s: State, t: TxnId, x: Txn)
    requires s == AtRestWith(s.accounts, s.rows, s.jobs) && x.plan != []
    ensures Step(env, One(s, t, x), Execute(t)) ==
      match Run(env, One(s, t, x), t)
      case Waits => One(s, t, x)
      case Runs(x') => One(s, t, x')
      case Throws(reason) => RolledBackTo(s, t, x.program, reason)
  {
    var f := Step(env, One(s, t, x), Execute(t));
    if Run(env, One(s, t, x), t).Throws? {
      assert One(s, t, x).txns - {t} == map[];
    }
  }

  /** Nobody holds a lock, so nothing waits. */
  lemma FreeAlone(s: State, t: TxnId, x: Txn, a: AccountId, id: RowId)
    ensures AccountFree(One(s, t, x), t, a) && RowFree(One(s, t, x), t, id)
  {
  }

  lemma CommitAlone(env: Env, s: State, t: TxnId, x: Txn)
    requires s == AtRestWith(s.accounts, s.rows, s.jobs) && x.plan == []
    ensures Step(env, One(s, t, x), Commit(t)) ==
      State(map a | a in s.accounts :: s.accounts[a].(balance := Balance(s, x, a)),
            s.rows + x.rows, s.jobs + x.jobs, map[], map[t := Committed(x.program)])
  {
    assert One(s, t, x).txns - {t} == map[];
  }

  /** After a rollback the remaining events do nothing. */
  lemma OverIsOver(env: Env, s: State, t: TxnId, p: Program, reason: Reason)
    requires s == AtRestWith(s.accounts, s.rows, s.jobs)
    ensures
      var f := RolledBackTo(s, t, p, reason);
      Step(env, f, Execute(t)) == f && Step(env, f, Commit(t)) == f
  {
  }

  lemma IdleAlone(env: Env, s: State, t: TxnId, x: Txn)
    requires x.plan == []
    ensures Step(env, One(s, t, x), Execute(t)) == One(s, t, x)
  {
  }

  // ----- checkout -----

  /** A checkout with nobody in between, in the machine and in one piece. */
  lemma CheckoutIsTheMachine(env: Env, s: State, t: TxnId, r: Checkout, order: RowId)
    requires s == AtRestWith(s.accounts, s.rows, s.jobs)
    ensures SameEnd(s, Exec(env, s, Alone(t, PlaceOrder(r, order))), t, PlaceOrder(r, order), Checked(env, s, r, order))
  {
    SoloIsExec(env, s, t, PlaceOrder(r, order));
    CheckoutAlone(env, s, t, r, order);
  }

  lemma CheckoutAlone(env: Env, s: State, t: TxnId, r: Checkout, order: RowId)
    requires s == AtRestWith(s.accounts, s.rows, s.jobs)
    ensures SameEnd(s, Solo(env, s, t, PlaceOrder(r, order)), t, PlaceOrder(r, order), Checked(env, s, r, order))
  {
    var p := PlaceOrder(r, order);
    BeginAlone(env, s, t, p);
    if r.quantity <= 0 {
      OverIsOver(env, s, t, p, BadQuantity);
    } else {
      var x := Txn(p, [Debit(r, order)], map[], map[], []);
      ExecuteAlone(env, s, t, x);
      FreeAlone(s, t, x, r.account, order);
      match Run(env, One(s, t, x), t) {
        case Throws(reason) => OverIsOver(env, s, t, p, reason);
        case Runs(y) => InsertAlone(env, s, t, r, order, y);
      }
    }
  }

  lemma InsertAlone(env: Env, s: State, t: TxnId, r: Checkout, order: RowId, y: Txn)
    requires s == AtRestWith(s.accounts, s.rows, s.jobs) && r.quantity > 0 && r.account in s.accounts
    requires s.accounts[r.account].balance >= r.Cost() && RateFor(env, s.accounts[r.account].currency).Some?
    requires
      var currency := s.accounts[r.account].currency;
      var row := OrderRow(r, currency, RateFor(env, currency).value);
      y == Txn(PlaceOrder(r, order), [Insert(order, row), Enqueue(order)],
               map[r.account := s.accounts[r.account].balance - r.Cost()], map[], [])
    ensures
      var p := PlaceOrder(r, order);
      SameEnd(s, Step(env, Step(env, Step(env, One(s, t, y), Execute(t)), Execute(t)), Commit(t)), t, p, Checked(env, s, r, order))
  {
    var p := PlaceOrder(r, order);
    var row := y.plan[0].row;
    ExecuteAlone(env, s, t, y);
    FreeAlone(s, t, y, r.account, order);
    match Run(env, One(s, t, y), t) {
      case Throws(reason) => OverIsOver(env, s, t, p, reason);
      case Runs(z) =>
        assert z == y.(plan := [Enqueue(order)], rows := map[order := row]);
        ExecuteAlone(env, s, t, z);
        var w := z.(plan := [], jobs := [order]);
        assert Run(env, One(s, t, z), t) == Runs(w);
        CommitAlone(env, s, t, w);
        BalancesWritten(s, w, r.account);
        assert s.rows + w.rows == s.rows[order := row];
    }
  }

  lemma BalancesWritten(s: State, x: Txn, a: AccountId)
    requires a in s.accounts && x.balances.Keys == {a}
    ensures (map b | b in s.accounts :: s.accounts[b].(balance := Balance(s, x, b))) ==
      s.accounts[a := s.accounts[a].(balance := x.balances[a])]
  {
  }

  // ----- changeStatus -----

  /** A status change with nobody in between, in the machine and in one piece. */
  lemma StatusChangeIsTheMachine(env: Env, s: State, t: TxnId, order: RowId, target: Status, user: UserId)
    requires s == AtRestWith(s.accounts, s.rows, s.jobs)
    ensures SameEnd(s, Exec(env, s, Alone(t, ChangeStatus(order, target, user))), t, ChangeStatus(order, target, user),
                    Changed(s, order, target, user))
  {
    SoloIsExec(env, s, t, ChangeStatus(order, target, user));
    StatusAlone(env, s, t, order, target, user);
  }

  lemma StatusAlone(env: Env, s: State, t: TxnId, order: RowId, target: Status, user: UserId)
    requires s == AtRestWith(s.accounts, s.rows, s.jobs)
    ensures SameEnd(s, Solo(env, s, t, ChangeStatus(order, target, user)), t, ChangeStatus(order, target, user),
                    Changed(s, order, target, user))
  {
    var p := ChangeStatus(order, target, user);
    var x := Txn(p, [LockOrder(order, target, user)], map[], map[], []);
    BeginAlone(env, s, t, p);
    ExecuteAlone(env, s, t, x);
    FreeAlone(s, t, x, 0, order);
    match Run(env, One(s, t, x), t) {
      case Throws(reason) => OverIsOver(env, s, t, p, reason);
      case Runs(y) => LockedAlone(env, s, t, order, target, user, y);
    }
  }

  lemma LockedAlone(env: Env, s: State, t: TxnId, order: RowId, target: Status, user: UserId, y: Txn)
    requires s == AtRestWith(s.accounts, s.rows, s.jobs) && Changed(s, order, target, user).Ok?
    requires y == Txn(ChangeStatus(order, target, user), StatusPlan(order, s.rows[order], target), map[],
                      map[order := s.rows[order]], [])
    ensures SameEnd(s, Step(env, Step(env, Step(env, One(s, t, y), Execute(t)), Execute(t)), Commit(t)), t,
                    ChangeStatus(order, target, user), Changed(s, order, target, user))
  {
    var row := s.rows[order];
    if row.status == target {
      IdleAlone(env, s, t, y);
      NothingMoves(env, s, t, y, order, row);
    } else {
      StatusSetAlone(env, s, t, order, target, y);
      var z := y.(plan := y.plan[1..], rows := map[order := row.(status := target)]);
      if z.plan == [] {
        IdleAlone(env, s, t, z);
        NothingMoves(env, s, t, z, order, row.(status := target));
      } else {
        MoneyMoves(env, s, t, z, order, row.(status := target));
      }
    }
  }

  lemma StatusSetAlone(env: Env, s: State, t: TxnId, order: RowId, target: Status, y: Txn)
    requires s == AtRestWith(s.accounts, s.rows, s.jobs) && order in s.rows && s.rows[order].status != target
    requires y.plan == StatusPlan(order, s.rows[order], target) && y.rows == map[order := s.rows[order]]
    ensures y.plan != [] && Step(env, One(s, t, y), Execute(t)) ==
      One(s, t, y.(plan := y.plan[1..], rows := map[order := s.rows[order].(status := target)]))
  {
    var row := s.rows[order];
    assert y.plan[0] == SetStatus(order, row, target);
    assert y.rows[order := row.(status := target)] == map[order := row.(status := target)];
    ExecuteAlone(env, s, t, y);
  }

  lemma NothingMoves(env: Env, s: State, t: TxnId, x: Txn, order: RowId, row: Row)
    requires s == AtRestWith(s.accounts, s.rows, s.jobs)
    requires x == Txn(x.program, [], map[], map[order := row], [])
    ensures Step(env, One(s, t, x), Commit(t)) ==
      State(s.accounts, s.rows[order := row], s.jobs, map[], map[t := Committed(x.program)])
  {
    CommitAlone(env, s, t, x);
    assert (map b | b in s.accounts :: s.accounts[b].(balance := Balance(s, x, b))) == s.accounts;
    assert s.rows + map[order := row] == s.rows[order := row];
  }

  lemma MoneyMoves(env: Env, s: State, t: TxnId, x: Txn, order: RowId, row: Row)
    requires s == AtRestWith(s.accounts, s.rows, s.jobs) && row.account in s.accounts
    requires |x.plan| == 1 && x.plan[0].Increment? && x.plan[0].account == row.account
    requires x == Txn(x.program, x.plan, map[], map[order := row], [])
    ensures
      var a := row.account;
      Step(env, Step(env, One(s, t, x), Execute(t)), Commit(t)) ==
        State(s.accounts[a := s.accounts[a].(balance := s.accounts[a].balance + x.plan[0].delta)],
              s.rows[order := row], s.jobs, map[], map[t := Committed(x.program)])
  {
    var a := row.account;
    ExecuteAlone(env, s, t, x);
    FreeAlone(s, t, x, a, order);
    var y := x.(plan := [], balances := map[a := s.accounts[a].balance + x.plan[0].delta]);
    assert x.plan[1..] == [];
    assert Run(env, One(s, t, x), t) == Runs(y);
    CommitAlone(env, s, t, y);
    BalancesWritten(s, y, a);
    assert s.rows + map[order := row] == s.rows[order := row];
  }

  // ----- the two services in plain terms -----

  /** What a checkout needs, field by field. */
  predicate CheckoutFits(env: Env, s: State, r: Checkout, order: RowId) {
    && r.quantity > 0 && r.unitPriceCents > 0
    && r.account in s.accounts && s.accounts[r.account].balance >= r.unitPriceCents * r.quantity
    && (s.accounts[r.account].currency != "UAH" ==>
          var rate := env.newestRate(s.accounts[r.account].currency);
          rate.Some? && rate.value > 0.0 && rate.value != 1.0)
    && r.instrument in env.instrumentIds && order !in s.rows
    && (r.description.Some? ==> |r.description.value| <= 500)
  }

  /** The order row: a posted purchase, the quantity in millionths, the price in whole units of the account's currency. */
  ghost predicate OrderStored(env: Env, account: Account, r: Checkout, row: Row) {
    && row.account == r.account && row.kind == TransactionType.Buy && row.status == Posted
    && row.instrument == Some(r.instrument) && row.amount == r.unitPriceCents * r.quantity
    && row.quantityMicro == Some(r.quantity * 1_000_000)
    && row.unitPrice == Some(r.unitPriceCents as real / 100.0)
    && row.currency == account.currency
    && (row.currency == "UAH" ==> row.fxRate == 1.0)
    && (row.currency != "UAH" ==> env.newestRate(row.currency) == Some(row.fxRate))
    && row.bookedAt == r.bookedAt && row.description == r.description
  }

  /** The tables after a checkout: one order, one job, and the cost off the account. */
  ghost predicate CheckoutBooked(env: Env, s: State, s': State, r: Checkout, order: RowId) {
    && r.account in s.accounts && order in s'.rows && OrderStored(env, s.accounts[r.account], r, s'.rows[order])
    && s'.rows == s.rows[order := s'.rows[order]] && s'.jobs == s.jobs + [order]
    && s'.accounts == s.accounts[r.account :=
         s.accounts[r.account].(balance := s.accounts[r.account].balance - r.unitPriceCents * r.quantity)]
  }

  /** When each rejection is given: the first of them that applies, in this order. */
  ghost predicate CheckoutRefused(env: Env, s: State, r: Checkout, order: RowId, reason: Reason) {
    if r.quantity <= 0 then reason == BadQuantity
    else if r.account !in s.accounts then reason == NoSuchAccount
    else if s.accounts[r.account].balance < r.unitPriceCents * r.quantity then reason == InsufficientFunds
    else if s.accounts[r.account].currency != "UAH" && env.newestRate(s.accounts[r.account].currency).None? then reason == NoFxRate
    else reason == ConstraintViolated && !CheckoutFits(env, s, r, order)
  }

  lemma ProductIsNonNegative(x: int, y: int)
    requires x >= 0 && y >= 0
    ensures x * y >= 0
  {
  }

  lemma CheckoutInPlainTerms(env: Env, s: State, r: Checkout, order: RowId)
    ensures Checked(env, s, r, order).Ok? <==> CheckoutFits(env, s, r, order)
    ensures Checked(env, s, r, order).Ok? ==> CheckoutBooked(env, s, Checked(env, s, r, order).value, r, order)
    ensures Checked(env, s, r, order).Err? ==> CheckoutRefused(env, s, r, order, Checked(env, s, r, order).error)
  {
    if r.unitPriceCents > 0 && r.quantity > 0 { ProductIsNonNegative(r.unitPriceCents, r.quantity); }
  }

  /** What a status change adds to the row's account: the amount, in or out, when it crosses the `posted` line. */
  function MovedBy(row: Row, target: Status): int {
    var comesIn := row.kind in {Income, TransferIn, Sell};
    if row.status != Posted && target == Posted then (if comesIn then row.amount else -row.amount)
    else if row.status == Posted && target != Posted then (if comesIn then -row.amount else row.amount)
    else 0
  }

  ghost predicate StatusBooked(s: State, s': State, order: RowId, target: Status, user: UserId) {
    && order in s.rows && s.rows[order].account in s.accounts && s.accounts[s.rows[order].account].user == user
    && var row := s.rows[order];
    && s'.rows == s.rows[order := row.(status := target)] && s'.jobs == s.jobs
    && s'.accounts == s.accounts[row.account :=
         s.accounts[row.account].(balance := s.accounts[row.account].balance + MovedBy(row, target))]
  }

  ghost predicate StatusRefused(s: State, order: RowId, user: UserId, reason: Reason) {
    if order !in s.rows || s.rows[order].account !in s.accounts then reason == OrderNotFound
    else reason == NotOwner && s.accounts[s.rows[order].account].user != user
  }

  lemma StatusChangeInPlainTerms(s: State, order: RowId, target: Status, user: UserId)
    ensures match Changed(s, order, target, user)
            case Ok(after) => StatusBooked(s, after, order, target, user)
            case Err(reason) => StatusRefused(s, order, user, reason)
  {
  }

  // ----- the code -----

  /** The tables the two services write; a method that throws leaves them as the rollback does. */
  class Tables {
    var accounts: map<AccountId, Account>
    var rows: map<RowId, Row>
    var jobs: seq<RowId>

    function View(): State
      reads this
    {
      AtRestWith(accounts, rows, jobs)
    }

    constructor (s: State)
      ensures View() == AtRestWith(s.accounts, s.rows, s.jobs)
    {
      accounts, rows, jobs := s.accounts, s.rows, s.jobs;
    }

    /** The guarded UPDATE and, when it matched nothing, the question why. */
    method DebitAccount(account: AccountId, cost: int) returns (r: Result<string, Reason>)
      modifies this`accounts
      ensures r.Ok? <==> account in old(accounts) && old(accounts)[account].balance >= cost
      ensures r.Ok? ==>
        && r.value == old(accounts)[account].currency
        && accounts == old(accounts)[account := old(accounts)[account].(balance := old(accounts)[account].balance - cost)]
      ensures r.Err? ==>
        && accounts == old(accounts)
        && r.error == if account in old(accounts) then InsufficientFunds else NoSuchAccount
    {
      var affected := if account in accounts && accounts[account].balance >= cost then 1 else 0;
      if affected > 0 {
        accounts := accounts[account := accounts[account].(balance := accounts[account].balance - cost)];
        return Ok(accounts[account].currency);
      }
      return Err(if account in accounts then InsufficientFunds else NoSuchAccount);
    }

    /** `checkout`: debit, price, order and job, or nothing. */
    method PlaceCheckout(env: Env, r: Checkout, order: RowId) returns (reply: Result<RowId, Reason>)
      modifies this
      ensures match Checked(env, old(View()), r, order)
              case Ok(after) => reply == Ok(order) && View() == after
              case Err(reason) => reply == Err(reason) && View() == old(View())
      ensures reply.Ok? <==> CheckoutFits(env, old(View()), r, order)
      ensures reply.Ok? ==> CheckoutBooked(env, old(View()), View(), r, order)
      ensures reply.Err? ==> CheckoutRefused(env, old(View()), r, order, reply.error)
    {
      CheckoutInPlainTerms(env, View(), r, order);
      if r.quantity <= 0 {
        return Err(BadQuantity);
      }
      var before := accounts;
      var debited := DebitAccount(r.account, r.Cost());
      if debited.Err? {
        return Err(debited.error);
      }
      var rate := RateFor(env, debited.value);
      if rate == None {
        accounts := before;
        return Err(NoFxRate);
      }
      var row := OrderRow(r, debited.value, rate.value);
      if order in rows || !ChecksHold(row) || r.instrument !in env.instrumentIds {
        accounts := before;
        return Err(ConstraintViolated);
      }
      rows := rows[order := row];
      jobs := jobs + [order];
      return Ok(order);
    }

    /** `changeStatus`: whether an event goes out is the reply. */
    method ChangeOrderStatus(order: RowId, target: Status, user: UserId) returns (changed: Result<bool, Reason>)
      modifies this
      ensures match Changed(old(View()), order, target, user)
              case Ok(after) => changed == Ok(old(rows)[order].status != target) && View() == after
              case Err(reason) => changed == Err(reason) && View() == old(View())
      ensures changed.Ok? ==> StatusBooked(old(View()), View(), order, target, user)
      ensures changed.Ok? ==> order in old(rows) && (changed.value <==> old(rows)[order].status != target)
      ensures changed.Err? ==> StatusRefused(old(View()), order, user, changed.error)
    {
      StatusChangeInPlainTerms(View(), order, target, user);
      if order !in rows || rows[order].account !in accounts {
        return Err(OrderNotFound);
      }
      var row := rows[order];
      if accounts[row.account].user != user {
        return Err(NotOwner);
      }
      if row.status == target {
        assert Changed(View(), order, target, user).value == View();
        return Ok(false);
      }
      rows := rows[order := row.(status := target)];
      if (row.status == Posted) != (target == Posted) {
        var booked := Sign(row.kind) * row.amount;
        var account := accounts[row.account];
        accounts := accounts[row.account := account.(balance := account.balance + if target == Posted then booked else -booked)];
      } else {
        assert accounts[row.account := accounts[row.account]] == accounts;
      }
      return Ok(true);
    }
  }
}

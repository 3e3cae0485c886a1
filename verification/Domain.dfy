/** Accounts and ledger rows, with the constraints the schema puts on them. */
module Domain {
  import opened Wrappers

  type AccountId = nat
  type UserId = nat
  type RowId = nat
  type InstrumentId = nat

  datatype TransactionType = Income | Expense | TransferIn | TransferOut | Buy | Sell

  datatype Status = Pending | Posted | Failed

  /** +1 for money in, -1 for money out. */
  function Sign(t: TransactionType): int {
    match t
    case Income => 1
    case TransferIn => 1
    case Sell => 1
    case Expense => -1
    case TransferOut => -1
    case Buy => -1
  }

  const BASE_CURRENCY := "UAH"

  datatype Account = Account(user: UserId, currency: string, balance: int)

  /** A `YYYY-MM-DD` text: always ten characters. */
  type DateText = s: string | |s| == 10 witness "1970-01-01"

  /** A point in time, to the millisecond: its calendar date in UTC and the time of day. */
  datatype Moment = Moment(date: DateText, millisOfDay: nat)

  datatype Row = Row(
    account: AccountId,
    instrument: Option<InstrumentId>,
    currency: string,
    kind: TransactionType,
    status: Status,
    amount: int,
    fxRate: real,
    quantityMicro: Option<int>,
    unitPrice: Option<real>,
    bookedAt: Moment,
    description: Option<string>)

  /** The CHECK constraints on `transactions`; a NULL passes, as in SQL. */
  predicate ChecksHold(r: Row) {
    && (r.kind.Buy? || r.kind.Sell? <==> r.instrument.Some?)
    && (r.currency == BASE_CURRENCY <==> r.fxRate == 1.0)
    && r.amount >= 0
    && r.fxRate > 0.0
    && (r.quantityMicro.Some? ==> r.quantityMicro.value > 0)
    && (r.unitPrice.Some? ==> r.unitPrice.value > 0.0)
    && (r.description.Some? ==> |r.description.value| <= 500)
  }

  /** The composite foreign key (account_id, currency) -> accounts (id, currency). */
  predicate AccountMatches(accounts: map<AccountId, Account>, r: Row) {
    r.account in accounts && accounts[r.account].currency == r.currency
  }

  /** What a row adds to the balance of account `a`: only posted rows count. */
  function Booked(r: Row, a: AccountId): int {
    if r.account == a && r.status == Posted then Sign(r.kind) * r.amount else 0
  }
}

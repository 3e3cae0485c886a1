/**
 * `POST /transactions`: a batch of entries in one database transaction. The batched form (accounts, instruments and
 * rates looked up once per distinct value, one multi-row INSERT, one balance update per account) is proved to do
 * what creating the entries one by one does.
 */
module CreateBatch {
  import opened Wrappers
  import opened Domain
  import opened EffectiveRates

  datatype Entry = Entry(
    account: AccountId,
    kind: TransactionType,
    amount: int,
    currency: string,
    bookedAt: Moment,
    description: Option<string>,
    symbol: Option<string>,
    quantityMicro: Option<int>)

  datatype Problem =
    | AccountNotFound(account: AccountId)
    | Forbidden(account: AccountId)
    | CurrencyMismatch(account: AccountId)
    | InstrumentTypeMismatch(kind: TransactionType)
    | InstrumentNotFound
    | FxRateUnavailable(noRate: NoRate)
    | RowRefused   // a CHECK, the foreign key or the primary key

  /** Everything a batch reads that no batch writes. */
  datatype Reference = Reference(instruments: map<string, InstrumentId>, rates: RateLookup)

  datatype Db = Db(accounts: map<AccountId, Account>, rows: map<RowId, Row>)

  /** JavaScript truth: an empty symbol counts as none. */
  predicate Truthy(symbol: Option<string>) { symbol.Some? && symbol.value != "" }

  /** The checks made on one entry while the batch is built, in their order. */
  function EntryProblem(accounts: map<AccountId, Account>, user: UserId, e: Entry): (r: Option<Problem>) {
    if e.account !in accounts then Some(AccountNotFound(e.account))
    else if accounts[e.account].user != user then Some(Forbidden(e.account))
    else if accounts[e.account].currency != e.currency then Some(CurrencyMismatch(e.account))
    else if (e.kind.Buy? || e.kind.Sell?) != Truthy(e.symbol) then Some(InstrumentTypeMismatch(e.kind))
    else None
  }

  function PairOf(e: Entry): Pair { Pair(e.currency, e.bookedAt) }

  /** The row one entry is stored as, once its instrument and rate are known. */
  function RowOf(ref: Reference, e: Entry, rate: real): Row {
    var instrument :=
      if Truthy(e.symbol) && e.symbol.value in ref.instruments then Some(ref.instruments[e.symbol.value]) else None;
    Row(e.account, instrument, e.currency, e.kind, Posted, e.amount, rate, e.quantityMicro, None, e.bookedAt, e.description)
  }

  predicate SymbolKnown(ref: Reference, e: Entry) {
    e.symbol.Some? ==> e.symbol.value in ref.instruments
  }

  // ----- the simple form: one entry at a time -----

  function CreateOne(ref: Reference, db: Db, user: UserId, e: Entry, id: RowId): Result<Db, Problem> {
    var problem := EntryProblem(db.accounts, user, e);
    if problem.Some? then Err(problem.value)
    else if !SymbolKnown(ref, e) then Err(InstrumentNotFound)
    else
      match EffectiveRate(ref.rates, PairOf(e))
      case Err(noRate) => Err(FxRateUnavailable(noRate))
      case Ok(rate) =>
        var row := RowOf(ref, e, rate);
        if !ChecksHold(row) || !AccountMatches(db.accounts, row) || id in db.rows then Err(RowRefused)
        else
          var account := db.accounts[e.account];
          Ok(Db(db.accounts[e.account := account.(balance := account.balance + Sign(e.kind) * e.amount)],
                db.rows[id := row]))
  }

  /** All entries, in order; the first problem rejects everything. */
  function CreateEach(ref: Reference, db: Db, user: UserId, es: seq<Entry>, ids: seq<RowId>): Result<Db, Problem>
    requires |ids| == |es|
    decreases |es|
  {
    if es == [] then Ok(db)
    else
      var n := |es| - 1;
      match CreateEach(ref, db, user, es[..n], ids[..n])
      case Err(problem) => Err(problem)
      case Ok(before) => CreateOne(ref, before, user, es[n], ids[n])
  }

  /** The balance an account gains from a batch. */
  function SignedSum(es: seq<Entry>, a: AccountId): int {
    if es == [] then 0 else SignedSum(es[..|es| - 1], a) + Delta(es[|es| - 1], a)
  }

  function Delta(e: Entry, a: AccountId): int { if e.account == a then Sign(e.kind) * e.amount else 0 }

  /** Whether an entry would be stored; it depends on nothing a batch changes. */
  predicate Acceptable(ref: Reference, accounts: map<AccountId, Account>, user: UserId, e: Entry) {
    && EntryProblem(accounts, user, e) == None
    && SymbolKnown(ref, e)
    && EffectiveRate(ref.rates, PairOf(e)).Ok?
    && ChecksHold(RowOf(ref, e, EffectiveRate(ref.rates, PairOf(e)).value))
  }

  ghost predicate AllAcceptable(ref: Reference, accounts: map<AccountId, Account>, user: UserId, es: seq<Entry>) {
    forall i :: 0 <= i < |es| ==> Acceptable(ref, accounts, user, es[i])
  }

  /** The primary key accepts all ids. */
  ghost predicate FreshIds(rows: map<RowId, Row>, ids: seq<RowId>) {
    && (forall i :: 0 <= i < |ids| ==> ids[i] !in rows)
    && (forall i, j :: 0 <= i < j < |ids| ==> ids[i] != ids[j])
  }

  function NewRows(ref: Reference, es: seq<Entry>, ids: seq<RowId>): map<RowId, Row>
    requires |ids| == |es|
    requires forall i :: 0 <= i < |es| ==> EffectiveRate(ref.rates, PairOf(es[i])).Ok?
  {
    if es == [] then map[]
    else
      var n := |es| - 1;
      NewRows(ref, es[..n], ids[..n])[ids[n] := RowOf(ref, es[n], EffectiveRate(ref.rates, PairOf(es[n])).value)]
  }

  function Credit(accounts: map<AccountId, Account>, es: seq<Entry>): map<AccountId, Account> {
    map a | a in accounts :: accounts[a].(balance := accounts[a].balance + SignedSum(es, a))
  }

  lemma {:induction false} NewRowsAreTheIds(ref: Reference, es: seq<Entry>, ids: seq<RowId>, id: RowId)
    requires |ids| == |es| && forall i :: 0 <= i < |es| ==> EffectiveRate(ref.rates, PairOf(es[i])).Ok?
    ensures id in NewRows(ref, es, ids) <==> id in ids
    decreases |es|
  {
    if es != [] {
      var n := |es| - 1;
      NewRowsAreTheIds(ref, es[..n], ids[..n], id);
      assert ids == ids[..n] + [ids[n]];
    }
  }

  lemma FreshIdsGrow(rows: map<RowId, Row>, ids: seq<RowId>)
    requires ids != []
    ensures
      var n := |ids| - 1;
      FreshIds(rows, ids) <==> FreshIds(rows, ids[..n]) && ids[n] !in rows && ids[n] !in ids[..n]
  {
    var n := |ids| - 1;
    var front := ids[..n];
    if FreshIds(rows, ids) {
      forall i | 0 <= i < n ensures front[i] == ids[i] && front[i] != ids[n] {}
    }
    if FreshIds(rows, front) && ids[n] !in rows && ids[n] !in front {
      forall i, j | 0 <= i < j < |ids| ensures ids[i] != ids[j] { assert front[i] == ids[i]; }
      forall i | 0 <= i < |ids| ensures ids[i] !in rows { assert i < n ==> front[i] == ids[i]; }
    }
  }

  /** The one-by-one form in closed terms: all rows and all per-account sums, or nothing. */
  lemma {:induction false} CreateEachIs(ref: Reference, db: Db, user: UserId, es: seq<Entry>, ids: seq<RowId>)
    requires |ids| == |es|
    ensures CreateEach(ref, db, user, es, ids).Ok? <==> AllAcceptable(ref, db.accounts, user, es) && FreshIds(db.rows, ids)
    ensures AllAcceptable(ref, db.accounts, user, es) && FreshIds(db.rows, ids) ==>
      CreateEach(ref, db, user, es, ids) == Ok(Db(Credit(db.accounts, es), db.rows + NewRows(ref, es, ids)))
    decreases |es|
  {
    if es == [] {
      assert Credit(db.accounts, es) == db.accounts;
      assert db.rows + map[] == db.rows;
    } else {
      var n := |es| - 1;
      CreateEachIs(ref, db, user, es[..n], ids[..n]);
      AcceptableGrows(ref, db.accounts, user, es);
      FreshIdsGrow(db.rows, ids);
      if AllAcceptable(ref, db.accounts, user, es[..n]) && FreshIds(db.rows, ids[..n]) {
        OneMore(ref, db, user, es, ids);
      }
    }
  }

  lemma AcceptableGrows(ref: Reference, accounts: map<AccountId, Account>, user: UserId, es: seq<Entry>)
    requires es != []
    ensures
      var n := |es| - 1;
      AllAcceptable(ref, accounts, user, es) <==>
        AllAcceptable(ref, accounts, user, es[..n]) && Acceptable(ref, accounts, user, es[n])
  {
  }

  lemma OneMore(ref: Reference, db: Db, user: UserId, es: seq<Entry>, ids: seq<RowId>)
    requires |ids| == |es| > 0
    requires AllAcceptable(ref, db.accounts, user, es[..|es| - 1])
    ensures
      var n := |es| - 1;
      var before := Db(Credit(db.accounts, es[..n]), db.rows + NewRows(ref, es[..n], ids[..n]));
      var r := CreateOne(ref, before, user, es[n], ids[n]);
      if Acceptable(ref, db.accounts, user, es[n]) && ids[n] !in db.rows && ids[n] !in ids[..n]
      then AllAcceptable(ref, db.accounts, user, es) && r == Ok(Db(Credit(db.accounts, es), db.rows + NewRows(ref, es, ids)))
      else r.Err?
  {
    var n := |es| - 1;
    var front := es[..n];
    var before := Db(Credit(db.accounts, front), db.rows + NewRows(ref, front, ids[..n]));
    assert EntryProblem(before.accounts, user, es[n]) == EntryProblem(db.accounts, user, es[n]);
    NewRowsAreTheIds(ref, front, ids[..n], ids[n]);
    if Acceptable(ref, db.accounts, user, es[n]) && ids[n] !in before.rows {
      AcceptableGrows(ref, db.accounts, user, es);
      CreditGrows(db.accounts, es);
      assert db.rows + NewRows(ref, es, ids) == before.rows[ids[n] := RowOf(ref, es[n], EffectiveRate(ref.rates, PairOf(es[n])).value)];
    }
  }

  lemma CreditGrows(accounts: map<AccountId, Account>, es: seq<Entry>)
    requires es != [] && es[|es| - 1].account in accounts
    ensures
      var e, before := es[|es| - 1], Credit(accounts, es[..|es| - 1]);
      Credit(accounts, es) ==
        before[e.account := before[e.account].(balance := before[e.account].balance + Sign(e.kind) * e.amount)]
  {
  }

  // ----- in plain terms -----

  /** The amounts of the entries of some kinds on one account. */
  function AmountOf(es: seq<Entry>, a: AccountId, kinds: set<TransactionType>): int {
    if es == [] then 0
    else
      var e := es[|es| - 1];
      AmountOf(es[..|es| - 1], a, kinds) + if e.account == a && e.kind in kinds then e.amount else 0
  }

  /** What the signs come to: a batch moves a balance by what comes in minus what goes out. */
  lemma {:induction false} SignedSumIsInMinusOut(es: seq<Entry>, a: AccountId)
    ensures SignedSum(es, a) == AmountOf(es, a, {Income, TransferIn, Sell}) - AmountOf(es, a, {Expense, TransferOut, Buy})
    decreases |es|
  {
    if es != [] {
      SignedSumIsInMinusOut(es[..|es| - 1], a);
    }
  }

  /** What the service asks of an entry before it looks anything up. */
  predicate EntryFits(accounts: map<AccountId, Account>, user: UserId, e: Entry) {
    && e.account in accounts && accounts[e.account].user == user && accounts[e.account].currency == e.currency
    && (e.kind in {Buy, Sell} <==> e.symbol.Some? && e.symbol.value != "")
  }

  predicate SymbolListed(ref: Reference, e: Entry) { e.symbol.Some? ==> e.symbol.value in ref.instruments }

  /** What the service and the schema together ask of an entry, field by field. */
  predicate Storable(ref: Reference, accounts: map<AccountId, Account>, user: UserId, e: Entry) {
    && EntryFits(accounts, user, e) && SymbolListed(ref, e)
    && (e.currency != "UAH" ==>
          var rate := ref.rates(e.currency, e.bookedAt.date);
          rate.Some? && rate.value > 0.0 && rate.value != 1.0)
    && e.amount >= 0
    && (e.quantityMicro.Some? ==> e.quantityMicro.value > 0)
    && (e.description.Some? ==> |e.description.value| <= 500)
  }

  lemma AcceptableIsStorable(ref: Reference, accounts: map<AccountId, Account>, user: UserId, e: Entry)
    ensures Acceptable(ref, accounts, user, e) <==> Storable(ref, accounts, user, e)
  {
  }

  /** The row of an entry, field by field. */
  predicate StoredAs(ref: Reference, e: Entry, row: Row) {
    && row.account == e.account && row.kind == e.kind && row.status == Posted && row.amount == e.amount
    && row.currency == e.currency && row.bookedAt == e.bookedAt && row.description == e.description
    && row.quantityMicro == e.quantityMicro && row.unitPrice == None
    && (e.kind in {Buy, Sell} ==>
          && e.symbol.Some? && e.symbol.value in ref.instruments
          && row.instrument == Some(ref.instruments[e.symbol.value]))
    && (e.kind !in {Buy, Sell} ==> row.instrument == None)
    && (e.currency == "UAH" ==> row.fxRate == 1.0)
    && (e.currency != "UAH" ==> ref.rates(e.currency, e.bookedAt.date) == Some(row.fxRate))
  }

  lemma RowIsStoredAs(ref: Reference, accounts: map<AccountId, Account>, user: UserId, e: Entry)
    requires Acceptable(ref, accounts, user, e)
    ensures StoredAs(ref, e, RowOf(ref, e, EffectiveRate(ref.rates, PairOf(e)).value))
  {
  }

  /** The tables after an accepted batch: one new row per entry, and every balance moved by in minus out. */
  ghost predicate BatchBooked(ref: Reference, db: Db, after: Db, es: seq<Entry>, ids: seq<RowId>)
    requires |ids| == |es|
  {
    && (forall i :: 0 <= i < |es| ==> ids[i] in after.rows && StoredAs(ref, es[i], after.rows[ids[i]]))
    && (forall id :: id in after.rows <==> id in db.rows || id in ids)
    && (forall id :: id in db.rows ==> after.rows[id] == db.rows[id])
    && MovedByInMinusOut(db.accounts, after.accounts, es)
  }

  ghost predicate MovedByInMinusOut(accounts: map<AccountId, Account>, after: map<AccountId, Account>, es: seq<Entry>) {
    && after.Keys == accounts.Keys
    && forall a :: a in accounts ==>
         && after[a].user == accounts[a].user && after[a].currency == accounts[a].currency
         && after[a].balance == accounts[a].balance
              + AmountOf(es, a, {Income, TransferIn, Sell}) - AmountOf(es, a, {Expense, TransferOut, Buy})
  }

  lemma {:induction false} NewRowsAre(ref: Reference, accounts: map<AccountId, Account>, user: UserId, es: seq<Entry>, ids: seq<RowId>)
    requires |ids| == |es| && AllAcceptable(ref, accounts, user, es)
    requires forall i, j :: 0 <= i < j < |ids| ==> ids[i] != ids[j]
    ensures forall i :: 0 <= i < |es| ==>
      ids[i] in NewRows(ref, es, ids) && StoredAs(ref, es[i], NewRows(ref, es, ids)[ids[i]])
    decreases |es|
  {
    if es != [] {
      var n := |es| - 1;
      AcceptableGrows(ref, accounts, user, es);
      NewRowsAre(ref, accounts, user, es[..n], ids[..n]);
      RowIsStoredAs(ref, accounts, user, es[n]);
      assert forall i :: 0 <= i < n ==> es[..n][i] == es[i] && ids[..n][i] == ids[i];
    }
  }

  lemma CreditIsInMinusOut(accounts: map<AccountId, Account>, es: seq<Entry>)
    ensures MovedByInMinusOut(accounts, Credit(accounts, es), es)
  {
    forall a | a in accounts
      ensures Credit(accounts, es)[a].balance == accounts[a].balance
        + AmountOf(es, a, {Income, TransferIn, Sell}) - AmountOf(es, a, {Expense, TransferOut, Buy})
    {
      SignedSumIsInMinusOut(es, a);
    }
  }

  /** A batch is accepted exactly when each entry can be stored and the ids are free, and this is what it leaves. */
  lemma CreatedExactlyWhen(ref: Reference, db: Db, user: UserId, es: seq<Entry>, ids: seq<RowId>)
    requires |ids| == |es|
    ensures CreateEach(ref, db, user, es, ids).Ok? <==>
      && (forall i :: 0 <= i < |es| ==> Storable(ref, db.accounts, user, es[i]))
      && (forall i :: 0 <= i < |ids| ==> ids[i] !in db.rows)
      && (forall i, j :: 0 <= i < j < |ids| ==> ids[i] != ids[j])
    ensures CreateEach(ref, db, user, es, ids).Ok? ==> BatchBooked(ref, db, CreateEach(ref, db, user, es, ids).value, es, ids)
  {
    CreateEachIs(ref, db, user, es, ids);
    forall i | 0 <= i < |es| ensures Acceptable(ref, db.accounts, user, es[i]) <==> Storable(ref, db.accounts, user, es[i]) {
      AcceptableIsStorable(ref, db.accounts, user, es[i]);
    }
    if AllAcceptable(ref, db.accounts, user, es) && FreshIds(db.rows, ids) {
      NewRowsAre(ref, db.accounts, user, es, ids);
      CreditIsInMinusOut(db.accounts, es);
      forall id ensures id in NewRows(ref, es, ids) <==> id in ids { NewRowsAreTheIds(ref, es, ids, id); }
    }
  }

  // ----- the batched form -----

  ghost predicate IsFirstProblem(accounts: map<AccountId, Account>, user: UserId, es: seq<Entry>, i: nat, p: Problem)
    requires i < |es|
  {
    && EntryProblem(accounts, user, es[i]) == Some(p)
    && forall j :: 0 <= j < i ==> EntryProblem(accounts, user, es[j]) == None
  }

  /** Every entry passes, its account is in the map, and the map holds exactly the per-account signed sums. */
  ghost predicate DeltasAre(accounts: map<AccountId, Account>, user: UserId, es: seq<Entry>, deltas: map<AccountId, int>) {
    && (forall i :: 0 <= i < |es| ==> EntryProblem(accounts, user, es[i]) == None && es[i].account in deltas)
    && (forall a :: a in deltas ==> a in accounts && deltas[a] == SignedSum(es, a))
    && (forall a :: a !in deltas ==> SignedSum(es, a) == 0)
  }

  lemma DeltasGrow(accounts: map<AccountId, Account>, user: UserId, es: seq<Entry>, deltas: map<AccountId, int>, e: Entry)
    requires DeltasAre(accounts, user, es, deltas) && EntryProblem(accounts, user, e) == None
    ensures
      var soFar := if e.account in deltas then deltas[e.account] else 0;
      DeltasAre(accounts, user, es + [e], deltas[e.account := soFar + Sign(e.kind) * e.amount])
  {
    var soFar := if e.account in deltas then deltas[e.account] else 0;
    var deltas' := deltas[e.account := soFar + Sign(e.kind) * e.amount];
    forall a ensures if a in deltas' then a in accounts && deltas'[a] == SignedSum(es + [e], a) else SignedSum(es + [e], a) == 0 {
      SumGrows(es, e, a);
    }
    EntriesGrow(accounts, user, es, deltas, e, deltas');
  }

  lemma EntriesGrow(accounts: map<AccountId, Account>, user: UserId, es: seq<Entry>, deltas: map<AccountId, int>, e: Entry,
                    deltas': map<AccountId, int>)
    requires DeltasAre(accounts, user, es, deltas) && EntryProblem(accounts, user, e) == None
    requires deltas'.Keys == deltas.Keys + {e.account}
    ensures forall i :: 0 <= i < |es + [e]| ==>
      EntryProblem(accounts, user, (es + [e])[i]) == None && (es + [e])[i].account in deltas'
  {
    forall i | 0 <= i < |es + [e]|
      ensures EntryProblem(accounts, user, (es + [e])[i]) == None && (es + [e])[i].account in deltas'
    {
      if i < |es| {
        assert (es + [e])[i] == es[i] && es[i].account in deltas.Keys;
      }
    }
  }

  lemma SumGrows(es: seq<Entry>, e: Entry, a: AccountId)
    ensures SignedSum(es + [e], a) == SignedSum(es, a) + Delta(e, a)
  {
    assert (es + [e])[..|es|] == es;
  }

  /** The validation loop: the first offending entry decides, otherwise every account gets its signed sum. */
  method BuildDeltas(accounts: map<AccountId, Account>, user: UserId, es: seq<Entry>)
    returns (r: Result<map<AccountId, int>, Problem>)
    ensures r.Err? ==> exists i :: 0 <= i < |es| && IsFirstProblem(accounts, user, es, i, r.error)
    ensures r.Ok? ==> DeltasAre(accounts, user, es, r.value)
  {
    var deltas: map<AccountId, int> := map[];
    for n := 0 to |es|
      invariant DeltasAre(accounts, user, es[..n], deltas)
    {
      var e := es[n];
      assert es[..n + 1] == es[..n] + [e];
      var problem := EntryProblem(accounts, user, e);
      if problem.Some? {
        assert forall j :: 0 <= j < n ==> es[..n][j] == es[j];
        assert IsFirstProblem(accounts, user, es, n, problem.value);
        return Err(problem.value);
      }
      DeltasGrow(accounts, user, es[..n], deltas, e);
      var soFar := if e.account in deltas then deltas[e.account] else 0;
      deltas := deltas[e.account := soFar + Sign(e.kind) * e.amount];
    }
    assert es[..|es|] == es;
    r := Ok(deltas);
  }

  function PairsOf(es: seq<Entry>): (r: seq<Pair>)
    ensures |r| == |es| && forall i :: 0 <= i < |r| ==> r[i] == PairOf(es[i])
  {
    seq(|es|, i requires 0 <= i < |es| => PairOf(es[i]))
  }

  /** The rows of the entries, in their order, each with the rate a lookup of its own would give. */
  ghost predicate AreRowsOf(ref: Reference, es: seq<Entry>, batch: seq<Row>) {
    && |batch| == |es|
    && forall i :: 0 <= i < |es| ==>
         && SymbolKnown(ref, es[i])
         && EffectiveRate(ref.rates, PairOf(es[i])).Ok?
         && batch[i] == RowOf(ref, es[i], EffectiveRate(ref.rates, PairOf(es[i])).value)
  }

  ghost predicate SymbolsKnown(ref: Reference, es: seq<Entry>) { forall i :: 0 <= i < |es| ==> SymbolKnown(ref, es[i]) }

  /** Why rows cannot be built: an unknown symbol anywhere comes first, then the first entry without a rate. */
  ghost predicate RowsFailWith(ref: Reference, es: seq<Entry>, p: Problem) {
    if !SymbolsKnown(ref, es) then p == InstrumentNotFound
    else exists i, e :: 0 <= i < |es| && IsFirstFailure(EachRate(ref.rates, PairsOf(es)), i, e) && p == FxRateUnavailable(e)
  }

  /** `saveMany` up to the INSERT: the rows of the batch in the order of its entries, or the reason there are none. */
  method BuildRows(ref: Reference, es: seq<Entry>) returns (r: Result<seq<Row>, Problem>)
    ensures r.Ok? <==> forall i :: 0 <= i < |es| ==> SymbolKnown(ref, es[i]) && EffectiveRate(ref.rates, PairOf(es[i])).Ok?
    ensures r.Ok? ==> AreRowsOf(ref, es, r.value)
    ensures r.Err? ==> RowsFailWith(ref, es, r.error)
  {
    for n := 0 to |es|
      invariant forall i :: 0 <= i < n ==> SymbolKnown(ref, es[i])
    {
      if !SymbolKnown(ref, es[n]) {
        return Err(InstrumentNotFound);
      }
    }
    var pairs := PairsOf(es);
    var resolved, _ := EffectiveRatesOf(ref.rates, pairs);
    if resolved.Err? {
      ghost var i :| 0 <= i < |pairs| && IsFirstFailure(EachRate(ref.rates, pairs), i, resolved.error);
      assert EffectiveRate(ref.rates, PairOf(es[i])).Err?;
      return Err(FxRateUnavailable(resolved.error));
    }
    var keys := KeysOf(pairs);
    var rows: seq<Row> := [];
    for n := 0 to |es|
      invariant AreRowsOf(ref, es[..n], rows)
    {
      assert EachRate(ref.rates, pairs)[n] == Ok(resolved.value[keys[n]]);
      rows := rows + [RowOf(ref, es[n], resolved.value[keys[n]])];
    }
    assert es[..|es|] == es;
    r := Ok(rows);
  }

  /**
   * What a rejected batch reports: the first entry that fails its checks; when none does, an unknown symbol; then the
   * first entry without a rate; and only then a violated constraint.
   */
  ghost predicate FailsWith(ref: Reference, accounts: map<AccountId, Account>, user: UserId, es: seq<Entry>, p: Problem) {
    if !EntriesPass(accounts, user, es) then exists i :: 0 <= i < |es| && IsFirstProblem(accounts, user, es, i, p)
    else if !Resolved(ref, es) then RowsFailWith(ref, es, p)
    else p == RowRefused
  }

  ghost predicate EntriesPass(accounts: map<AccountId, Account>, user: UserId, es: seq<Entry>) {
    forall i :: 0 <= i < |es| ==> EntryProblem(accounts, user, es[i]) == None
  }

  ghost predicate Resolved(ref: Reference, es: seq<Entry>) {
    forall i :: 0 <= i < |es| ==> SymbolKnown(ref, es[i]) && EffectiveRate(ref.rates, PairOf(es[i])).Ok?
  }

  /** A batch has one thing to report. */
  lemma OneReport(ref: Reference, accounts: map<AccountId, Account>, user: UserId, es: seq<Entry>, p: Problem, q: Problem)
    requires FailsWith(ref, accounts, user, es, p) && FailsWith(ref, accounts, user, es, q)
    ensures p == q
  {
    if !EntriesPass(accounts, user, es) {
      var i :| 0 <= i < |es| && IsFirstProblem(accounts, user, es, i, p);
      var j :| 0 <= j < |es| && IsFirstProblem(accounts, user, es, j, q);
      assert i == j;
    } else if !Resolved(ref, es) && SymbolsKnown(ref, es) {
      var each := EachRate(ref.rates, PairsOf(es));
      var i, e :| 0 <= i < |es| && IsFirstFailure(each, i, e) && p == FxRateUnavailable(e);
      var j, f :| 0 <= j < |es| && IsFirstFailure(each, j, f) && q == FxRateUnavailable(f);
      assert i == j;
    }
  }

  /** The lookup has a rate for its currency and date, or it needs none. */
  predicate Priced(ref: Reference, e: Entry) { e.currency != "UAH" ==> ref.rates(e.currency, e.bookedAt.date).Some? }

  /** What each report on a single entry says about it: the first thing wrong with it, in this order. */
  predicate SaysOfEntry(accounts: map<AccountId, Account>, user: UserId, e: Entry, p: Problem) {
    if e.account !in accounts then p == AccountNotFound(e.account)
    else if accounts[e.account].user != user then p == Forbidden(e.account)
    else if accounts[e.account].currency != e.currency then p == CurrencyMismatch(e.account)
    else p == InstrumentTypeMismatch(e.kind)
  }

  lemma EntryProblemSays(accounts: map<AccountId, Account>, user: UserId, e: Entry)
    ensures EntryProblem(accounts, user, e) == None <==> EntryFits(accounts, user, e)
    ensures EntryProblem(accounts, user, e).Some? ==> SaysOfEntry(accounts, user, e, EntryProblem(accounts, user, e).value)
  {
  }

  /**
   * What a rejection says about the batch: of the entries that do not fit, the first decides; when all fit, an unknown
   * symbol anywhere; when all symbols are known, the first entry without a rate; and then a constraint.
   */
  ghost predicate SaysOf(ref: Reference, accounts: map<AccountId, Account>, user: UserId, es: seq<Entry>, p: Problem) {
    if exists i :: 0 <= i < |es| && !EntryFits(accounts, user, es[i]) then
      exists i :: 0 <= i < |es| && !EntryFits(accounts, user, es[i]) && (forall j :: 0 <= j < i ==> EntryFits(accounts, user, es[j]))
        && SaysOfEntry(accounts, user, es[i], p)
    else if exists i :: 0 <= i < |es| && !SymbolListed(ref, es[i]) then p == InstrumentNotFound
    else if exists i :: 0 <= i < |es| && !Priced(ref, es[i]) then
      exists i :: 0 <= i < |es| && !Priced(ref, es[i]) && (forall j :: 0 <= j < i ==> Priced(ref, es[j]))
        && p == FxRateUnavailable(NoRate(es[i].currency, es[i].bookedAt.date))
    else p == RowRefused
  }

  lemma EntriesPassSays(accounts: map<AccountId, Account>, user: UserId, es: seq<Entry>)
    ensures EntriesPass(accounts, user, es) <==> forall i :: 0 <= i < |es| ==> EntryFits(accounts, user, es[i])
  {
    forall i | 0 <= i < |es| ensures EntryProblem(accounts, user, es[i]) == None <==> EntryFits(accounts, user, es[i]) {
      EntryProblemSays(accounts, user, es[i]);
    }
  }

  lemma FirstProblemSays(ref: Reference, accounts: map<AccountId, Account>, user: UserId, es: seq<Entry>, i: nat, p: Problem)
    requires i < |es| && IsFirstProblem(accounts, user, es, i, p)
    ensures SaysOf(ref, accounts, user, es, p)
  {
    EntryProblemSays(accounts, user, es[i]);
    forall j | 0 <= j < i ensures EntryFits(accounts, user, es[j]) {
      EntryProblemSays(accounts, user, es[j]);
    }
  }

  lemma LookupsSay(ref: Reference, accounts: map<AccountId, Account>, user: UserId, es: seq<Entry>, p: Problem)
    requires EntriesPass(accounts, user, es) && !Resolved(ref, es) && RowsFailWith(ref, es, p)
    ensures SaysOf(ref, accounts, user, es, p)
  {
    EntriesPassSays(accounts, user, es);
    assert forall i :: 0 <= i < |es| ==> (SymbolKnown(ref, es[i]) <==> SymbolListed(ref, es[i]));
    if SymbolsKnown(ref, es) {
      var each := EachRate(ref.rates, PairsOf(es));
      var i: nat, e :| i < |es| && IsFirstFailure(each, i, e) && p == FxRateUnavailable(e);
      FirstUnpriced(ref, es, i, e);
    }
  }

  lemma FirstUnpriced(ref: Reference, es: seq<Entry>, i: nat, e: NoRate)
    requires i < |es| && IsFirstFailure(EachRate(ref.rates, PairsOf(es)), i, e)
    ensures !Priced(ref, es[i]) && e == NoRate(es[i].currency, es[i].bookedAt.date)
    ensures forall j :: 0 <= j < i ==> Priced(ref, es[j])
  {
    var each := EachRate(ref.rates, PairsOf(es));
    assert each[i] == EffectiveRate(ref.rates, PairOf(es[i]));
    forall j | 0 <= j < i ensures Priced(ref, es[j]) {
      assert each[j] == EffectiveRate(ref.rates, PairOf(es[j]));
    }
  }

  /** A report is true of the batch it is about. */
  lemma ReportsAreTrue(ref: Reference, accounts: map<AccountId, Account>, user: UserId, es: seq<Entry>, p: Problem)
    requires FailsWith(ref, accounts, user, es, p)
    ensures SaysOf(ref, accounts, user, es, p)
  {
    EntriesPassSays(accounts, user, es);
    if !EntriesPass(accounts, user, es) {
      var i: nat :| i < |es| && IsFirstProblem(accounts, user, es, i, p);
      FirstProblemSays(ref, accounts, user, es, i, p);
    } else if !Resolved(ref, es) {
      LookupsSay(ref, accounts, user, es, p);
    } else {
      forall i | 0 <= i < |es| ensures SymbolListed(ref, es[i]) && Priced(ref, es[i]) {
        assert SymbolKnown(ref, es[i]) && EffectiveRate(ref.rates, PairOf(es[i])).Ok?;
      }
    }
  }

  /** All there is to know about one `create`, with no word of how it goes about it. */
  ghost predicate InPlainTerms(ref: Reference, db: Db, after: Db, user: UserId, es: seq<Entry>, ids: seq<RowId>,
                               r: Result<seq<Row>, Problem>)
    requires |ids| == |es|
  {
    && (r.Ok? <==>
          && (forall i :: 0 <= i < |es| ==> Storable(ref, db.accounts, user, es[i]))
          && (forall i :: 0 <= i < |ids| ==> ids[i] !in db.rows)
          && (forall i, j :: 0 <= i < j < |ids| ==> ids[i] != ids[j]))
    && (r.Ok? ==> BatchBooked(ref, db, after, es, ids))
    && (r.Ok? ==> |r.value| == |es| && forall i :: 0 <= i < |es| ==> r.value[i] == after.rows[ids[i]])
    && (r.Err? ==> after == db && SaysOf(ref, db.accounts, user, es, r.error))
  }

  lemma RejectedInPlainTerms(ref: Reference, db: Db, user: UserId, es: seq<Entry>, ids: seq<RowId>, p: Problem)
    requires |ids| == |es| && CreateEach(ref, db, user, es, ids).Err? && FailsWith(ref, db.accounts, user, es, p)
    ensures InPlainTerms(ref, db, db, user, es, ids, Err(p))
  {
    CreatedExactlyWhen(ref, db, user, es, ids);
    ReportsAreTrue(ref, db.accounts, user, es, p);
  }

  lemma AcceptedInPlainTerms(ref: Reference, db: Db, user: UserId, es: seq<Entry>, ids: seq<RowId>, batch: seq<Row>)
    requires |ids| == |es| && CreateEach(ref, db, user, es, ids).Ok? && AreRowsOf(ref, es, batch)
    ensures InPlainTerms(ref, db, CreateEach(ref, db, user, es, ids).value, user, es, ids, Ok(batch))
  {
    CreatedExactlyWhen(ref, db, user, es, ids);
    CreateEachIs(ref, db, user, es, ids);
    RowMapIsNewRows(ref, es, ids, batch);
    RowMapHolds(ids, batch);
  }

  /** The tables a batch writes. */
  class Database {
    var accounts: map<AccountId, Account>
    var rows: map<RowId, Row>

    function View(): Db
      reads this
    {
      Db(accounts, rows)
    }

    constructor (db: Db)
      ensures View() == db
    {
      accounts, rows := db.accounts, db.rows;
    }

    /** What the schema says to the rows of one INSERT, row by row. */
    method Accepts(ids: seq<RowId>, batch: seq<Row>) returns (ok: bool)
      requires |ids| == |batch|
      ensures ok <==> Insertable(accounts, batch) && FreshIds(rows, ids)
      ensures ok <==>
        && (forall i :: 0 <= i < |batch| ==>
              var r := batch[i];
              && r.account in accounts && r.currency == accounts[r.account].currency
              && (r.instrument == None <==> r.kind in {Income, Expense, TransferIn, TransferOut})
              && r.fxRate > 0.0 && (r.fxRate == 1.0 <==> r.currency == "UAH") && r.amount >= 0
              && (r.quantityMicro == None || r.quantityMicro.value >= 1)
              && (r.unitPrice == None || r.unitPrice.value > 0.0)
              && (r.description == None || |r.description.value| < 501))
        && (forall i :: 0 <= i < |ids| ==> ids[i] !in rows && ids[i] !in ids[..i])
    {
      RowsFitIs(accounts, rows, ids, batch);
      for n := 0 to |batch|
        invariant forall i :: 0 <= i < n ==> RowFits(accounts, rows, ids, batch, i)
      {
        if !ChecksHold(batch[n]) || !AccountMatches(accounts, batch[n]) || ids[n] in rows || ids[n] in ids[..n] {
          assert !RowFits(accounts, rows, ids, batch, n);
          return false;
        }
      }
      ok := true;
    }

    /** The multi-row INSERT: all rows, or none when any of them breaks a constraint. */
    method InsertAll(ids: seq<RowId>, batch: seq<Row>) returns (ok: bool)
      requires |ids| == |batch|
      modifies this`rows
      ensures ok <==> Insertable(accounts, batch) && FreshIds(old(rows), ids)
      ensures rows == old(rows) + if ok then RowMap(ids, batch) else map[]
    {
      ok := Accepts(ids, batch);
      if !ok {
        assert rows + map[] == rows;
        return;
      }
      for n := 0 to |batch|
        invariant rows == old(rows) + RowMap(ids[..n], batch[..n])
      {
        RowMapGrows(old(rows), ids, batch, n);
        rows := rows[ids[n] := batch[n]];
      }
      assert ids[..|batch|] == ids && batch[..|batch|] == batch;
    }

    /** `updateBalance` for every account of the delta map, in whatever order the map yields them. */
    method ApplyDeltas(deltas: map<AccountId, int>)
      requires deltas.Keys <= accounts.Keys
      modifies this`accounts
      ensures accounts == Moved(old(accounts), deltas, deltas.Keys)
    {
      var todo := deltas.Keys;
      MovedByNothing(accounts, deltas);
      while todo != {}
        invariant todo <= deltas.Keys
        invariant accounts == Moved(old(accounts), deltas, deltas.Keys - todo)
        decreases |todo|
      {
        var a :| a in todo;
        MovedByOneMore(old(accounts), deltas, deltas.Keys - todo, a);
        assert deltas.Keys - (todo - {a}) == deltas.Keys - todo + {a};
        accounts := accounts[a := accounts[a].(balance := accounts[a].balance + deltas[a])];
        todo := todo - {a};
      }
      assert deltas.Keys - todo == deltas.Keys;
    }

    /**
     * `TransactionsService.create`. The batch succeeds exactly when creating its entries one by one does, leaves the
     * same tables behind, and answers with the rows in the order of the entries; a rejected batch changes nothing and
     * reports the first thing that is wrong with it. In plain terms: it is accepted exactly when each entry is on an
     * account of the caller and can be stored, and then each balance moves by what comes in minus what goes out.
     */
    method Create(ref: Reference, user: UserId, es: seq<Entry>, ids: seq<RowId>) returns (r: Result<seq<Row>, Problem>)
      requires |ids| == |es|
      modifies this
      ensures match CreateEach(ref, old(View()), user, es, ids)
              case Ok(after) => r.Ok? && View() == after && AreRowsOf(ref, es, r.value)
              case Err(_) => r.Err? && View() == old(View())
      ensures r.Err? ==> FailsWith(ref, old(accounts), user, es, r.error)
      ensures InPlainTerms(ref, old(View()), View(), user, es, ids, r)
    {
      CreateEachIs(ref, View(), user, es, ids);
      var built := BuildDeltas(accounts, user, es);
      if built.Err? {
        RejectedInPlainTerms(ref, View(), user, es, ids, built.error);
        return Err(built.error);
      }
      var saved := BuildRows(ref, es);
      if saved.Err? {
        RejectedInPlainTerms(ref, View(), user, es, ids, saved.error);
        return Err(saved.error);
      }
      SchemaDecides(ref, accounts, user, es, saved.value);
      var ok := InsertAll(ids, saved.value);
      if !ok {
        assert rows == old(rows);
        RejectedInPlainTerms(ref, View(), user, es, ids, RowRefused);
        return Err(RowRefused);
      }
      RowMapIsNewRows(ref, es, ids, saved.value);
      MovedIsCredit(accounts, built.value, es);
      ApplyDeltas(built.value);
      AcceptedInPlainTerms(ref, old(View()), user, es, ids, saved.value);
      r := Ok(saved.value);
    }
  }

  /** Balances after the increments of the accounts in `done`. */
  function Moved(accounts: map<AccountId, Account>, deltas: map<AccountId, int>, done: set<AccountId>): map<AccountId, Account>
    requires done <= deltas.Keys
  {
    map a | a in accounts :: accounts[a].(balance := accounts[a].balance + if a in done then deltas[a] else 0)
  }

  lemma MovedByNothing(accounts: map<AccountId, Account>, deltas: map<AccountId, int>)
    ensures Moved(accounts, deltas, deltas.Keys - deltas.Keys) == accounts
  {
  }

  lemma MovedByOneMore(accounts: map<AccountId, Account>, deltas: map<AccountId, int>, done: set<AccountId>, a: AccountId)
    requires done <= deltas.Keys && a in deltas.Keys - done && a in accounts
    ensures
      var before := Moved(accounts, deltas, done);
      Moved(accounts, deltas, done + {a}) == before[a := before[a].(balance := before[a].balance + deltas[a])]
  {
  }

  /** The delta map holds each account's signed sum, so applying it credits the batch. */
  lemma MovedIsCredit(accounts: map<AccountId, Account>, deltas: map<AccountId, int>, es: seq<Entry>)
    requires forall a :: a in deltas ==> deltas[a] == SignedSum(es, a)
    requires forall a :: a !in deltas ==> SignedSum(es, a) == 0
    ensures Moved(accounts, deltas, deltas.Keys) == Credit(accounts, es)
  {
  }

  predicate RowFits(accounts: map<AccountId, Account>, rows: map<RowId, Row>, ids: seq<RowId>, batch: seq<Row>, n: nat)
    requires |ids| == |batch| && n < |batch|
  {
    ChecksHold(batch[n]) && AccountMatches(accounts, batch[n]) && ids[n] !in rows && ids[n] !in ids[..n]
  }

  lemma RowsFitIs(accounts: map<AccountId, Account>, rows: map<RowId, Row>, ids: seq<RowId>, batch: seq<Row>)
    requires |ids| == |batch|
    ensures (forall i :: 0 <= i < |batch| ==> RowFits(accounts, rows, ids, batch, i)) <==>
            Insertable(accounts, batch) && FreshIds(rows, ids)
  {
    if forall i :: 0 <= i < |batch| ==> RowFits(accounts, rows, ids, batch, i) {
      forall i | 0 <= i < |ids| ensures ids[i] !in rows && ChecksHold(batch[i]) && AccountMatches(accounts, batch[i]) {
        assert RowFits(accounts, rows, ids, batch, i);
      }
      forall i, j | 0 <= i < j < |ids| ensures ids[i] != ids[j] {
        assert RowFits(accounts, rows, ids, batch, j);
        assert ids[..j][i] == ids[i];
      }
    }
    if Insertable(accounts, batch) && FreshIds(rows, ids) {
      forall i: nat | i < |batch| ensures RowFits(accounts, rows, ids, batch, i) {
        assert forall j :: 0 <= j < i ==> ids[..i][j] != ids[i];
      }
    }
  }

  lemma RowMapGrows(rows: map<RowId, Row>, ids: seq<RowId>, batch: seq<Row>, n: nat)
    requires |ids| == |batch| && n < |batch|
    ensures rows + RowMap(ids[..n + 1], batch[..n + 1]) == (rows + RowMap(ids[..n], batch[..n]))[ids[n] := batch[n]]
  {
    assert ids[..n + 1][..n] == ids[..n] && batch[..n + 1][..n] == batch[..n];
  }

  function RowMap(ids: seq<RowId>, batch: seq<Row>): map<RowId, Row>
    requires |ids| == |batch|
  {
    if batch == [] then map[]
    else
      var n := |batch| - 1;
      RowMap(ids[..n], batch[..n])[ids[n] := batch[n]]
  }

  lemma {:induction false} RowMapHolds(ids: seq<RowId>, batch: seq<Row>)
    requires |ids| == |batch| && forall i, j :: 0 <= i < j < |ids| ==> ids[i] != ids[j]
    ensures forall i :: 0 <= i < |batch| ==> ids[i] in RowMap(ids, batch) && RowMap(ids, batch)[ids[i]] == batch[i]
    decreases |batch|
  {
    if batch != [] {
      var n := |batch| - 1;
      RowMapHolds(ids[..n], batch[..n]);
      assert forall i :: 0 <= i < n ==> ids[..n][i] == ids[i] && batch[..n][i] == batch[i];
    }
  }

  ghost predicate Insertable(accounts: map<AccountId, Account>, batch: seq<Row>) {
    forall i :: 0 <= i < |batch| ==> ChecksHold(batch[i]) && AccountMatches(accounts, batch[i])
  }

  /** Once the entries passed validation and resolution, the schema has the last word on the batch. */
  lemma SchemaDecides(ref: Reference, accounts: map<AccountId, Account>, user: UserId, es: seq<Entry>, batch: seq<Row>)
    requires AreRowsOf(ref, es, batch)
    requires forall i :: 0 <= i < |es| ==> EntryProblem(accounts, user, es[i]) == None
    ensures AllAcceptable(ref, accounts, user, es) <==> Insertable(accounts, batch)
  {
    forall i | 0 <= i < |es|
      ensures AccountMatches(accounts, batch[i])
      ensures Acceptable(ref, accounts, user, es[i]) <==> ChecksHold(batch[i])
    {
      assert EntryProblem(accounts, user, es[i]) == None;
    }
    if Insertable(accounts, batch) {
      assert forall i :: 0 <= i < |es| ==> ChecksHold(batch[i]);
    }
    if AllAcceptable(ref, accounts, user, es) {
      assert forall i :: 0 <= i < |es| ==> Acceptable(ref, accounts, user, es[i]);
    }
  }

  lemma {:induction false} RowMapIsNewRows(ref: Reference, es: seq<Entry>, ids: seq<RowId>, batch: seq<Row>)
    requires |ids| == |es| && AreRowsOf(ref, es, batch)
    ensures RowMap(ids, batch) == NewRows(ref, es, ids)
    decreases |es|
  {
    if es != [] {
      var n := |es| - 1;
      RowMapIsNewRows(ref, es[..n], ids[..n], batch[..n]);
    }
  }
}

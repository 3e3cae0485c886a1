/**
 * The checkout race: any number of equal checkouts of one account, interleaved in any way. How many succeed, the
 * final balance, the orders and the jobs do not depend on the schedule.
 */
module CheckoutRace {
  import opened Sums
  import opened Domain
  import opened Ledger
  import opened LedgerConservation
  import opened LedgerEffects

  function Wins(s: State): set<TxnId> {
    set t | t in s.outcomes && s.outcomes[t].Committed?
  }

  function Losses(s: State): set<TxnId> {
    set t | t in s.outcomes && s.outcomes[t].RolledBack?
  }

  /** A checkout that costs money, on an account that can be priced: only lack of funds can reject it. */
  ghost predicate Sound(env: Env, s: State, r: Checkout) {
    && r.quantity > 0 && r.Cost() > 0
    && OrderOf(env, s, r).Some? && ChecksHold(OrderOf(env, s, r).value)
    && r.instrument in env.instrumentIds
  }

  ghost predicate RaceStart(env: Env, s: State, r: Checkout) {
    AtRest(s) && s.outcomes == map[] && Sound(env, s, r) && s.accounts[r.account].balance >= 0
  }

  /** Nobody else writes: every transaction is the same checkout (order ids are fresh), and no connection is lost. */
  ghost predicate OnlyCheckouts(start: State, r: Checkout, es: seq<Event>) {
    forall i :: 0 <= i < |es| ==> RaceEvent(start, r, es[i])
  }

  predicate RaceEvent(start: State, r: Checkout, e: Event) {
    match e
    case Begin(t, p) => p == PlaceOrder(r, t) && t !in start.rows
    case Execute(_) => true
    case Commit(_) => true
    case Abort(_) => false
  }

  /** The transactions in flight. */
  ghost predicate Racers(env: Env, start: State, r: Checkout, s: State) {
    && AllFollow(env, s) && LocksExclude(s)
    && s.txns.Keys !! s.outcomes.Keys
    && forall t :: t in s.txns ==> s.txns[t].program == PlaceOrder(r, t) && t !in start.rows
  }

  /** The account pays for every win and for nothing else; a loss means there was too little left. */
  ghost predicate Money(start: State, r: Checkout, p: int, s: State) {
    && r.account in start.accounts && r.account in s.accounts
    && s.accounts == start.accounts[r.account := start.accounts[r.account].(balance := s.accounts[r.account].balance)]
    && s.accounts[r.account].balance == start.accounts[r.account].balance - Times(|Wins(s)|, p)
    && s.accounts[r.account].balance >= 0
    && (Losses(s) != {} ==> s.accounts[r.account].balance < p)
  }

  /** One order and one job per win. */
  ghost predicate Books(start: State, s: State) {
    && s.rows.Keys == start.rows.Keys + Wins(s) && Wins(s) !! start.rows.Keys
    && |s.jobs| == |start.jobs| + |Wins(s)|
  }

  /** A finished checkout has either placed its order or been refused for lack of funds. */
  ghost predicate Verdicts(r: Checkout, s: State) {
    forall t :: t in s.outcomes ==>
      s.outcomes[t] == Committed(PlaceOrder(r, t)) || s.outcomes[t] == RolledBack(PlaceOrder(r, t), InsufficientFunds)
  }

  ghost predicate RaceInv(env: Env, start: State, r: Checkout, s: State) {
    Racers(env, start, r, s) && Verdicts(r, s) && Money(start, r, r.Cost(), s) && Books(start, s)
  }

  lemma SameScore(start: State, r: Checkout, p: int, s: State, s': State)
    requires Money(start, r, p, s) && Books(start, s)
    requires s'.accounts == s.accounts && s'.rows == s.rows && s'.jobs == s.jobs && s'.outcomes == s.outcomes
    ensures Money(start, r, p, s') && Books(start, s')
  {
    assert Wins(s') == Wins(s) && Losses(s') == Losses(s);
  }

  lemma BeginKeepsLocks(env: Env, s: State, t: TxnId, p: Program)
    requires LocksExclude(s)
    ensures LocksExclude(Step(env, s, Begin(t, p)))
  {
  }

  lemma BeginKeepsRacers(env: Env, start: State, r: Checkout, s: State, t: TxnId)
    requires RaceStart(env, start, r) && Racers(env, start, r, s) && t !in start.rows
    ensures Racers(env, start, r, Step(env, s, Begin(t, PlaceOrder(r, t))))
  {
    BeginKeepsFollow(env, s, t, PlaceOrder(r, t));
    BeginKeepsLocks(env, s, t, PlaceOrder(r, t));
  }

  /** The quantity is positive, so a checkout that begins is in flight and nothing else changes. */
  lemma BeginMovesNoTable(env: Env, r: Checkout, s: State, t: TxnId)
    requires r.quantity > 0
    ensures
      var s' := Step(env, s, Begin(t, PlaceOrder(r, t)));
      s'.accounts == s.accounts && s'.rows == s.rows && s'.jobs == s.jobs && s'.outcomes == s.outcomes
  {
  }

  lemma BeginKeepsRace(env: Env, start: State, r: Checkout, s: State, t: TxnId)
    requires RaceStart(env, start, r) && RaceInv(env, start, r, s) && t !in start.rows
    ensures RaceInv(env, start, r, Step(env, s, Begin(t, PlaceOrder(r, t))))
  {
    BeginKeepsRacers(env, start, r, s, t);
    BeginMovesNoTable(env, r, s, t);
    SameScore(start, r, r.Cost(), s, Step(env, s, Begin(t, PlaceOrder(r, t))));
  }

  /** In the race a statement waits, runs, or finds too little money. */
  ghost predicate ReplyIsFair(env: Env, r: Checkout, s: State, t: TxnId)
    requires t in s.txns && s.txns[t].plan != [] && r.account in s.accounts
  {
    match Run(env, s, t)
    case Waits => true
    case Runs(x) => x.program == s.txns[t].program
    case Throws(reason) => reason == InsufficientFunds && s.accounts[r.account].balance < r.Cost()
  }

  lemma OnlyFundsReject(env: Env, start: State, r: Checkout, s: State, t: TxnId)
    requires RaceStart(env, start, r) && Racers(env, start, r, s) && Money(start, r, r.Cost(), s)
    requires t in s.txns && s.txns[t].plan != [] && t !in s.rows
    ensures ReplyIsFair(env, r, s, t)
  {
    assert Follows(env, s, s.txns[t]);
    assert OrderOf(env, s, r) == OrderOf(env, start, r);
  }

  lemma LocksReplaced(s: State, t: TxnId, x: Txn)
    requires LocksExclude(s) && t in s.txns
    requires forall u :: u in s.txns && u != t ==>
      x.balances.Keys !! s.txns[u].balances.Keys && x.rows.Keys !! s.txns[u].rows.Keys
    ensures LocksExclude(s.(txns := s.txns[t := x]))
  {
  }

  lemma LocksDropped(s: State, t: TxnId, o: Outcome)
    requires LocksExclude(s)
    ensures LocksExclude(Finish(s, t, o))
  {
  }

  lemma CheckoutIsShaped(env: Env, s: State, x: Txn)
    requires x.program.PlaceOrder? && Follows(env, s, x)
    ensures Shaped(x)
  {
  }

  lemma LocksStayExclusive(env: Env, s: State, t: TxnId)
    requires LocksExclude(s) && AllFollow(env, s) && forall u :: u in s.txns ==> s.txns[u].program.PlaceOrder?
    ensures LocksExclude(Step(env, s, Execute(t)))
  {
    if t in s.txns && s.txns[t].plan != [] {
      match Run(env, s, t) {
        case Waits =>
        case Throws(reason) => LocksDropped(s, t, RolledBack(s.txns[t].program, reason));
        case Runs(x) =>
          assert Follows(env, s, s.txns[t]);
          CheckoutIsShaped(env, s, s.txns[t]);
          forall u | u in s.txns && u != t
            ensures x.balances.Keys !! s.txns[u].balances.Keys && x.rows.Keys !! s.txns[u].rows.Keys
          {
            RunTakesFreeLocks(env, s, t, u);
          }
          LocksReplaced(s, t, x);
      }
    }
  }

  lemma ExecuteKeepsRacers(env: Env, start: State, r: Checkout, s: State, t: TxnId)
    requires Racers(env, start, r, s) && t in s.txns && s.txns[t].plan != [] && r.account in s.accounts && ReplyIsFair(env, r, s, t)
    ensures Racers(env, start, r, Step(env, s, Execute(t)))
  {
    ExecuteKeepsFollow(env, s, t);
    LocksStayExclusive(env, s, t);
  }

  lemma ExecuteKeepsVerdicts(env: Env, r: Checkout, s: State, t: TxnId)
    requires Verdicts(r, s) && t in s.txns && s.txns[t].plan != [] && r.account in s.accounts && ReplyIsFair(env, r, s, t)
    requires s.txns[t].program == PlaceOrder(r, t)
    ensures Verdicts(r, Step(env, s, Execute(t)))
  {
  }

  lemma LossScores(start: State, r: Checkout, p: int, s: State, t: TxnId)
    requires Money(start, r, p, s) && Books(start, s) && s.accounts[r.account].balance < p && t !in s.outcomes
    ensures Money(start, r, p, Finish(s, t, RolledBack(PlaceOrder(r, t), InsufficientFunds)))
    ensures Books(start, Finish(s, t, RolledBack(PlaceOrder(r, t), InsufficientFunds)))
  {
    assert Wins(Finish(s, t, RolledBack(PlaceOrder(r, t), InsufficientFunds))) == Wins(s);
  }

  lemma ExecuteKeepsRace(env: Env, start: State, r: Checkout, s: State, t: TxnId)
    requires RaceStart(env, start, r) && RaceInv(env, start, r, s)
    ensures RaceInv(env, start, r, Step(env, s, Execute(t)))
  {
    if t in s.txns && s.txns[t].plan != [] {
      assert t !in Wins(s);
      OnlyFundsReject(env, start, r, s, t);
      ExecuteKeepsRacers(env, start, r, s, t);
      ExecuteKeepsVerdicts(env, r, s, t);
      if Run(env, s, t).Throws? {
        LossScores(start, r, r.Cost(), s, t);
      } else {
        SameScore(start, r, r.Cost(), s, Step(env, s, Execute(t)));
      }
    }
  }

  lemma CommitMovesTheScore(env: Env, s: State, t: TxnId)
    requires t in s.txns && s.txns[t].plan == [] && t !in s.outcomes
    ensures
      var s' := Step(env, s, Commit(t));
      Wins(s') == Wins(s) + {t} && Losses(s') == Losses(s) && |Wins(s')| == |Wins(s)| + 1
  {
    var s' := Step(env, s, Commit(t));
    assert Wins(s') == Wins(s) + {t};
    assert Losses(s') == Losses(s);
  }

  lemma WinPays(env: Env, start: State, r: Checkout, p: int, s: State, t: TxnId)
    requires p == r.Cost() && p > 0 && Money(start, r, p, s) && t in s.txns && s.txns[t].plan == [] && t !in s.outcomes
    requires s.txns[t].program == PlaceOrder(r, t) && Follows(env, s, s.txns[t])
    ensures Money(start, r, p, Step(env, s, Commit(t)))
  {
    CommitTakesEffect(env, s, t);
    CommitMovesTheScore(env, s, t);
  }

  lemma WinAddsOne(env: Env, r: Checkout, s: State, t: TxnId)
    requires t in s.txns && s.txns[t].plan == [] && s.txns[t].program == PlaceOrder(r, t) && Follows(env, s, s.txns[t])
    ensures
      var s' := Step(env, s, Commit(t));
      t !in s.rows && s'.rows.Keys == s.rows.Keys + {t} && |s'.jobs| == |s.jobs| + 1
  {
    CommitTakesEffect(env, s, t);
  }

  lemma BooksGrow(start: State, s: State, s': State, t: TxnId)
    requires Books(start, s) && t !in start.rows
    requires s'.rows.Keys == s.rows.Keys + {t} && |s'.jobs| == |s.jobs| + 1
    requires Wins(s') == Wins(s) + {t} && |Wins(s')| == |Wins(s)| + 1
    ensures Books(start, s')
  {
  }

  lemma WinBooks(env: Env, start: State, r: Checkout, s: State, t: TxnId)
    requires Books(start, s) && t in s.txns && s.txns[t].plan == [] && t !in start.rows && t !in s.outcomes
    requires s.txns[t].program == PlaceOrder(r, t) && Follows(env, s, s.txns[t])
    ensures Books(start, Step(env, s, Commit(t)))
  {
    WinAddsOne(env, r, s, t);
    CommitMovesTheScore(env, s, t);
    BooksGrow(start, s, Step(env, s, Commit(t)), t);
  }

  lemma CommitKeepsRacers(env: Env, start: State, r: Checkout, s: State, t: TxnId)
    requires Racers(env, start, r, s)
    ensures Racers(env, start, r, Step(env, s, Commit(t)))
  {
    CommitKeepsFollow(env, s, t);
  }

  lemma CommitKeepsRace(env: Env, start: State, r: Checkout, s: State, t: TxnId)
    requires RaceStart(env, start, r) && RaceInv(env, start, r, s)
    ensures RaceInv(env, start, r, Step(env, s, Commit(t)))
  {
    CommitKeepsRacers(env, start, r, s, t);
    if t in s.txns && s.txns[t].plan == [] {
      WinPays(env, start, r, r.Cost(), s, t);
      WinBooks(env, start, r, s, t);
    }
  }

  lemma {:induction false} RaceAlways(env: Env, start: State, r: Checkout, s: State, es: seq<Event>)
    requires RaceStart(env, start, r) && RaceInv(env, start, r, s) && OnlyCheckouts(start, r, es)
    ensures RaceInv(env, start, r, Exec(env, s, es))
    decreases |es|
  {
    if es != [] {
      assert RaceEvent(start, r, es[0]);
      match es[0] {
        case Begin(t, p) => BeginKeepsRace(env, start, r, s, t);
        case Execute(t) => ExecuteKeepsRace(env, start, r, s, t);
        case Commit(t) => CommitKeepsRace(env, start, r, s, t);
      }
      RaceAlways(env, start, r, Step(env, s, es[0]), es[1..]);
    }
  }

  lemma RaceHolds(env: Env, start: State, r: Checkout, es: seq<Event>)
    requires RaceStart(env, start, r) && OnlyCheckouts(start, r, es)
    ensures RaceInv(env, start, r, Exec(env, start, es))
  {
    assert Wins(start) == {} && Losses(start) == {};
    assert Money(start, r, r.Cost(), start) && Books(start, start);
    RaceAlways(env, start, r, start, es);
  }

  function Min(a: int, b: int): int { if a <= b then a else b }

  lemma {:induction false} NextMultiple(p: nat, q: nat, k: nat)
    requires q < k
    ensures p * q + p <= p * k
  {
    assert p * k == p * (k - 1) + p;
    if q < k - 1 {
      NextMultiple(p, q, k - 1);
    }
  }

  lemma DivisionCovers(b: nat, p: nat, k: nat)
    requires p > 0 && p * k <= b
    ensures k <= b / p
    ensures b < p * k + p ==> b / p == k
  {
    var q := b / p;
    assert p * q <= b < p * q + p;
    if q < k {
      NextMultiple(p, q, k);
    } else if k < q {
      NextMultiple(p, k, q);
    }
  }

  /** Once nothing is in flight the score decides everything. */
  lemma FinalScore(start: State, r: Checkout, p: int, s: State)
    requires Money(start, r, p, s) && Books(start, s) && p > 0 && start.accounts[r.account].balance >= 0
    ensures
      var wins := Min(|s.outcomes|, start.accounts[r.account].balance / p);
      && |Wins(s)| == wins
      && s.accounts[r.account].balance == start.accounts[r.account].balance - p * wins
      && |s.rows| == |start.rows| + wins
  {
    assert |s.rows.Keys| == |start.rows.Keys| + |Wins(s)|;
    assert s.outcomes.Keys == Wins(s) + Losses(s);
    assert |s.outcomes.Keys| == |Wins(s)| + |Losses(s)|;
    ScoreIs(start.accounts[r.account].balance, p, |Wins(s)|, |Losses(s)|, s.accounts[r.account].balance);
  }

  /** What is left after k wins is not negative, and too little for another one if anybody lost. */
  lemma ScoreIs(b: nat, p: nat, wins: nat, losses: nat, left: int)
    requires p > 0 && left == b - Times(wins, p) && left >= 0 && (losses > 0 ==> left < p)
    ensures wins == Min(wins + losses, b / p) && left == b - p * wins
  {
    TimesIsProduct(wins, p);
    DivisionCovers(b, p, wins);
  }

  /**
   * N equal checkouts of an account holding B, in any interleaving: at every moment the balance is not negative; once
   * all have finished, exactly min(N, B div p) succeeded, each with one order and one job, and B - p * successes is left.
   */
  lemma RaceIsScheduleIndependent(env: Env, start: State, r: Checkout, es: seq<Event>)
    requires RaceStart(env, start, r) && OnlyCheckouts(start, r, es)
    ensures
      var s := Exec(env, start, es);
      var B, p := start.accounts[r.account].balance, r.Cost();
      && r.account in s.accounts && s.accounts[r.account].balance >= 0
      && Verdicts(r, s)
      && (s.txns == map[] ==>
            var wins := Min(|s.outcomes|, B / p);
            && |Wins(s)| == wins
            && s.accounts[r.account].balance == B - p * wins
            && |s.rows| == |start.rows| + wins
            && |s.jobs| == |start.jobs| + wins)
  {
    RaceHolds(env, start, r, es);
    FinalScore(start, r, r.Cost(), Exec(env, start, es));
  }

  /** The race cannot deadlock: while anybody is in flight, some statement or some commit goes through. */
  lemma SomebodyCanMove(env: Env, start: State, r: Checkout, es: seq<Event>) returns (e: Event)
    requires RaceStart(env, start, r) && OnlyCheckouts(start, r, es) && Exec(env, start, es).txns != map[]
    ensures RaceEvent(start, r, e) && !e.Begin? && Step(env, Exec(env, start, es), e) != Exec(env, start, es)
  {
    RaceHolds(env, start, r, es);
    e := SomeEventMoves(env, start, r, Exec(env, start, es));
  }

  lemma SomeEventMoves(env: Env, start: State, r: Checkout, s: State) returns (e: Event)
    requires RaceStart(env, start, r) && RaceInv(env, start, r, s) && s.txns != map[]
    ensures RaceEvent(start, r, e) && !e.Begin? && Step(env, s, e) != s
  {
    var t := PickHolder(s, r);
    if s.txns[t].plan == [] {
      e := Commit(t);
      assert t !in Step(env, s, e).txns;
    } else {
      e := Execute(t);
      HolderIsNotBlocked(env, start, r, s, t);
      assert Follows(env, s, s.txns[t]);
      MovesUnlessWaiting(env, s, t);
    }
  }

  /** Whoever holds the account, or anybody when nobody does. */
  lemma PickHolder(s: State, r: Checkout) returns (t: TxnId)
    requires s.txns != map[]
    ensures t in s.txns && (r.account in s.txns[t].balances || forall u :: u in s.txns ==> r.account !in s.txns[u].balances)
  {
    t :| t in s.txns;
    if u :| u in s.txns && r.account in s.txns[u].balances {
      t := u;
    }
  }

  lemma HolderIsNotBlocked(env: Env, start: State, r: Checkout, s: State, t: TxnId)
    requires Racers(env, start, r, s) && t in s.txns && s.txns[t].plan != []
    requires r.account in s.txns[t].balances || forall u :: u in s.txns ==> r.account !in s.txns[u].balances
    ensures !Run(env, s, t).Waits?
  {
    assert Follows(env, s, s.txns[t]);
    forall u | u in s.txns && u != t
      ensures t !in s.txns[u].rows
    {
      assert Follows(env, s, s.txns[u]);
    }
  }

  lemma MovesUnlessWaiting(env: Env, s: State, t: TxnId)
    requires t in s.txns && s.txns[t].plan != [] && !Run(env, s, t).Waits?
    requires Follows(env, s, s.txns[t]) && s.txns[t].program.PlaceOrder?
    ensures Step(env, s, Execute(t)) != s
  {
    var x := s.txns[t];
    match Run(env, s, t) {
      case Runs(x') => assert |x'.plan| != |x.plan|;
      case Throws(_) => assert t !in Step(env, s, Execute(t)).txns;
    }
  }
}

/**
 * The checkout race comes to an end: once no new request comes in, every schedule has at most four effective steps per
 * request in flight, some step is always possible until nothing is in flight, and then the score is the final one.
 */
module CheckoutRaceEnds {
  import opened Domain
  import opened Ledger
  import opened LedgerEffects
  import opened CheckoutRace
  import opened Sums

  /** Statements left, and the commit: debit, order, job, commit. */
  function Left(x: Txn): nat { if x.plan != [] && x.plan[0].Debit? then 4 else |x.plan| + 1 }

  function LeftOf(txns: map<TxnId, Txn>): map<TxnId, int> { map t | t in txns :: Left(txns[t]) }

  ghost function Rank(s: State): int { SumMap(LeftOf(s.txns)) }

  lemma RankReplaced(txns: map<TxnId, Txn>, t: TxnId, x: Txn)
    requires t in txns && Left(x) < Left(txns[t])
    ensures SumMap(LeftOf(txns[t := x])) < SumMap(LeftOf(txns))
  {
    assert LeftOf(txns[t := x]) == LeftOf(txns)[t := Left(x)];
    SumMapSet(LeftOf(txns), t, Left(x));
  }

  lemma RankDropped(txns: map<TxnId, Txn>, t: TxnId)
    requires t in txns
    ensures SumMap(LeftOf(txns - {t})) < SumMap(LeftOf(txns))
  {
    assert LeftOf(txns - {t}) == LeftOf(txns) - {t};
    SumMapRemove(LeftOf(txns), t);
  }

  lemma RunsOneLess(env: Env, s: State, t: TxnId)
    requires t in s.txns && s.txns[t].plan != [] && Run(env, s, t).Runs?
    requires s.txns[t].program.PlaceOrder? && Follows(env, s, s.txns[t])
    ensures Left(Run(env, s, t).txn) < Left(s.txns[t])
  {
  }

  ghost predicate Racing(env: Env, s: State) {
    AllFollow(env, s) && forall t :: t in s.txns ==> s.txns[t].program.PlaceOrder?
  }

  lemma StepLowersRank(env: Env, s: State, e: Event)
    requires Racing(env, s) && !e.Begin? && Step(env, s, e) != s
    ensures Rank(Step(env, s, e)) < Rank(s)
  {
    assert Follows(env, s, s.txns[e.t]);
    if e.Execute? && Run(env, s, e.t).Runs? {
      RunsOneLess(env, s, e.t);
      RankReplaced(s.txns, e.t, Run(env, s, e.t).txn);
    } else {
      RankDropped(s.txns, e.t);
    }
  }

  lemma RacingRank(env: Env, s: State)
    requires Racing(env, s)
    ensures 0 <= Rank(s) <= 4 * |s.txns|
  {
    var left := LeftOf(s.txns);
    forall t | t in left ensures 0 <= left[t] <= 4 { assert Follows(env, s, s.txns[t]); }
    SumMapBounded(left, 4);
    TimesIsProduct(|left.Keys|, 4);
    assert left.Keys == s.txns.Keys && |s.txns| == |s.txns.Keys|;
  }

  lemma RaceIsRacing(env: Env, start: State, r: Checkout, s: State)
    requires RaceInv(env, start, r, s)
    ensures Racing(env, s)
  {
  }

  /** No new request and nobody else. */
  ghost predicate Closing(start: State, r: Checkout, es: seq<Event>) {
    forall i :: 0 <= i < |es| ==> RaceEvent(start, r, es[i]) && !es[i].Begin?
  }

  /** How many events actually did something. */
  ghost function Effective(env: Env, s: State, es: seq<Event>): nat
    decreases |es|
  {
    if es == [] then 0 else (if Step(env, s, es[0]) != s then 1 else 0) + Effective(env, Step(env, s, es[0]), es[1..])
  }

  lemma OneStepRaces(env: Env, start: State, r: Checkout, s: State, e: Event)
    requires RaceStart(env, start, r) && RaceInv(env, start, r, s) && RaceEvent(start, r, e)
    ensures RaceInv(env, start, r, Step(env, s, e))
  {
    RaceAlways(env, start, r, s, [e]);
    assert [e][1..] == [];
    assert Exec(env, s, [e]) == Exec(env, Step(env, s, e), []);
  }

  lemma {:induction false} EffectiveIsBounded(env: Env, start: State, r: Checkout, s: State, es: seq<Event>)
    requires RaceStart(env, start, r) && RaceInv(env, start, r, s) && Closing(start, r, es)
    ensures Effective(env, s, es) <= Rank(s)
    decreases |es|
  {
    RaceIsRacing(env, start, r, s);
    RacingRank(env, s);
    if es != [] {
      OneStepRaces(env, start, r, s, es[0]);
      EffectiveIsBounded(env, start, r, Step(env, s, es[0]), es[1..]);
      if Step(env, s, es[0]) != s { StepLowersRank(env, s, es[0]); }
    }
  }

  /** No livelock: after any part of the race, without new requests, at most four steps per request in flight do anything. */
  lemma RaceIsFinite(env: Env, start: State, r: Checkout, es: seq<Event>, closing: seq<Event>)
    requires RaceStart(env, start, r) && OnlyCheckouts(start, r, es) && Closing(start, r, closing)
    ensures Effective(env, Exec(env, start, es), closing) <= 4 * |Exec(env, start, es).txns|
  {
    RaceHolds(env, start, r, es);
    var s := Exec(env, start, es);
    EffectiveIsBounded(env, start, r, s, closing);
    RaceIsRacing(env, start, r, s);
    RacingRank(env, s);
  }

  lemma {:induction false} ExecGrows(env: Env, s: State, es: seq<Event>, e: Event)
    ensures Exec(env, s, es + [e]) == Step(env, Exec(env, s, es), e)
    decreases |es|
  {
    if es == [] {
      assert (es + [e])[1..] == [];
    } else {
      assert (es + [e])[1..] == es[1..] + [e];
      ExecGrows(env, Step(env, s, es[0]), es[1..], e);
    }
  }

  ghost function RankAfter(env: Env, start: State, es: seq<Event>): int { Rank(Exec(env, start, es)) }

  ghost predicate Over(env: Env, start: State, es: seq<Event>) { Exec(env, start, es).txns == map[] }

  /** Until the race is over some event makes it shorter. */
  lemma OneMove(env: Env, start: State, r: Checkout, es: seq<Event>) returns (e: Event)
    requires RaceStart(env, start, r) && OnlyCheckouts(start, r, es) && !Over(env, start, es)
    ensures OnlyCheckouts(start, r, es + [e]) && !e.Begin?
    ensures 0 <= RankAfter(env, start, es + [e]) < RankAfter(env, start, es)
  {
    var s := Exec(env, start, es);
    RaceHolds(env, start, r, es);
    e := MoveDown(env, start, r, s);
    ExecGrows(env, start, es, e);
    RankIsNatural(env, start, r, es + [e]);
  }

  lemma MoveDown(env: Env, start: State, r: Checkout, s: State) returns (e: Event)
    requires RaceStart(env, start, r) && RaceInv(env, start, r, s) && s.txns != map[]
    ensures RaceEvent(start, r, e) && !e.Begin? && Rank(Step(env, s, e)) < Rank(s)
  {
    e := SomeEventMoves(env, start, r, s);
    RaceIsRacing(env, start, r, s);
    StepLowersRank(env, s, e);
  }

  lemma RankIsNatural(env: Env, start: State, r: Checkout, es: seq<Event>)
    requires RaceStart(env, start, r) && OnlyCheckouts(start, r, es)
    ensures RankAfter(env, start, es) >= 0
  {
    RaceHolds(env, start, r, es);
    RaceIsRacing(env, start, r, Exec(env, start, es));
    RacingRank(env, Exec(env, start, es));
  }

  lemma {:induction false} DriveToTheEnd(env: Env, start: State, r: Checkout, es: seq<Event>, k: nat) returns (closing: seq<Event>)
    requires RaceStart(env, start, r) && OnlyCheckouts(start, r, es) && RankAfter(env, start, es) <= k
    ensures Closing(start, r, closing) && Over(env, start, es + closing) && |closing| <= k
    decreases k
  {
    if Over(env, start, es) {
      closing := [];
      assert es + closing == es;
    } else {
      var e := OneMove(env, start, r, es);
      var rest := DriveToTheEnd(env, start, r, es + [e], k - 1);
      closing := [e] + rest;
      assert RaceEvent(start, r, (es + [e])[|es|]);
      assert es + closing == es + [e] + rest;
    }
  }

  /** The end is always within reach: from any point, at most four steps per request in flight finish the race. */
  lemma RaceCanAlwaysFinish(env: Env, start: State, r: Checkout, es: seq<Event>) returns (closing: seq<Event>)
    requires RaceStart(env, start, r) && OnlyCheckouts(start, r, es)
    ensures Closing(start, r, closing) && |closing| <= 4 * |Exec(env, start, es).txns|
    ensures Exec(env, start, es + closing).txns == map[]
  {
    var s := Exec(env, start, es);
    RaceHolds(env, start, r, es);
    RaceIsRacing(env, start, r, s);
    RacingRank(env, s);
    closing := DriveToTheEnd(env, start, r, es, 4 * |s.txns|);
  }
}

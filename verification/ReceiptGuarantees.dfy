/**
 * Who gets a receipt. Anybody may publish to the queue: checkouts, repetitions of their events, third parties, poison.
 * An acked message's order has a receipt exactly when the event ids among the valid messages name one order each.
 */
module ReceiptGuarantees {
  import opened Receipts

  // ----- what checkouts publish -----

  /** Every message of a checkout is valid and about a committed order whose event has gone out. */
  ghost predicate OursAreCommitted(s: State)
    requires WellFormed(s)
  {
    && s.unpublished <= s.orders
    && forall m: MsgId :: m < |s.bodies| && s.ours[m] ==>
         s.bodies[m].Placed? && s.bodies[m].order in s.orders && s.bodies[m].order !in s.unpublished
  }

  lemma {:induction false} OursAlways(s: State, es: seq<Event>)
    requires WellFormed(s) && OursAreCommitted(s)
    ensures OursAreCommitted(Exec(s, es))
    decreases |es|
  {
    if es != [] {
      StepKeepsOurs(s, es[0]);
      OursAlways(Step(s, es[0]), es[1..]);
    }
  }

  lemma StepKeepsOurs(s: State, e: Event)
    requires WellFormed(s) && OursAreCommitted(s)
    ensures OursAreCommitted(Step(s, e))
  {
  }

  /** Publishing after COMMIT: over every run, whoever else publishes, a checkout's message is about a committed order. */
  lemma CheckoutMessagesAreAboutCommittedOrders(es: seq<Event>)
    ensures WellFormed(EMPTY)
    ensures
      var s := Exec(EMPTY, es);
      forall m: MsgId :: m < |s.bodies| && s.ours[m] ==> s.bodies[m].Placed? && s.bodies[m].order in s.orders
  {
    OursAlways(EMPTY, es);
  }

  // ----- when event ids name one order each -----

  predicate Valid(bodies: seq<Body>, m: int) { 0 <= m < |bodies| && bodies[m].Placed? }

  /** Among the valid bodies an event id stands for one order. */
  ghost predicate NamesOneOrder(bodies: seq<Body>) {
    forall m, n :: Valid(bodies, m) && Valid(bodies, n) && bodies[m].eventId == bodies[n].eventId ==>
      bodies[m].order == bodies[n].order
  }

  /** Among the valid bodies an order is announced under one event id. */
  ghost predicate HasOneEventId(bodies: seq<Body>) {
    forall m, n :: Valid(bodies, m) && Valid(bodies, n) && bodies[m].order == bodies[n].order ==>
      bodies[m].eventId == bodies[n].eventId
  }

  lemma AckedHasAReceipt(s: State, m: MsgId)
    requires WellFormed(s) && ReceiptInv(s) && NamesOneOrder(s.bodies) && m in s.acked
    ensures m < |s.bodies| && s.bodies[m].Placed? && s.bodies[m].order in s.receipts
  {
    var b := s.bodies[m];
    assert Covered(s.receipts, b);
    var o :| o in s.receipts && (o == b.order || s.receipts[o] == b.eventId);
    var n :| 0 <= n < |s.bodies| && s.bodies[n] == Placed(s.receipts[o], o);
    assert s.bodies[n].eventId == b.eventId ==> s.bodies[n].order == b.order;
  }

  lemma ReceiptIsItsOwn(s: State, m: MsgId)
    requires WellFormed(s) && ReceiptInv(s) && HasOneEventId(s.bodies)
    requires m < |s.bodies| && s.bodies[m].Placed? && s.bodies[m].order in s.receipts
    ensures s.receipts[s.bodies[m].order] == s.bodies[m].eventId
  {
    var o := s.bodies[m].order;
    var n :| 0 <= n < |s.bodies| && s.bodies[n] == Placed(s.receipts[o], o);
    assert s.bodies[m].eventId == s.bodies[n].eventId;
  }

  /** A message that nobody holds and that is not waiting has been acked, or dead-lettered at the limit. */
  lemma SettledOneWay(s: State, m: MsgId)
    requires Inv(s) && s.ready == [] && s.inflight == [] && m < |s.bodies| && s.bodies[m].Placed?
    ensures m in s.acked || (m in s.dead && s.strikes[m] == 6)
  {
    assert LimitFor(s, m);
    assert Msgs(s.inflight) == [];
    assert Everywhere(s)[m] == 1;
  }

  ghost predicate AckedHaveReceipts(s: State) {
    forall m: MsgId :: m in s.acked && m < |s.bodies| && s.bodies[m].Placed? ==> s.bodies[m].order in s.receipts
  }

  /**
   * Over every run, with crashes, redeliveries, poison and third-party publishers, as long as no event id was published
   * for two orders: an acked message's order has a receipt (its own, if no order was announced under two ids), and once
   * the queue is empty every valid message's order has one unless the message was dead-lettered after six counted returns.
   */
  lemma EveryOrderGetsItsReceipt(es: seq<Event>)
    requires WellFormed(EMPTY) && NamesOneOrder(Exec(EMPTY, es).bodies)
    ensures
      var s := Exec(EMPTY, es);
      && AckedHaveReceipts(s)
      && (forall m: MsgId :: m in s.acked ==> m < |s.bodies| && s.bodies[m].Placed? && s.bodies[m].order in s.orders)
      && (HasOneEventId(s.bodies) ==> forall m: MsgId :: m < |s.bodies| && m in s.acked && s.bodies[m].Placed? ==>
            s.bodies[m].order in s.receipts && s.receipts[s.bodies[m].order] == s.bodies[m].eventId)
      && (s.ready == [] && s.inflight == [] ==> forall m: MsgId :: m < |s.bodies| && s.bodies[m].Placed? ==>
            s.bodies[m].order in s.receipts || (m in s.dead && s.strikes[m] == 6))
  {
    EmptyInv();
    InvAlways(EMPTY, es);
    var s := Exec(EMPTY, es);
    forall m: MsgId | m in s.acked
      ensures m < |s.bodies| && s.bodies[m].Placed? && s.bodies[m].order in s.receipts
      ensures HasOneEventId(s.bodies) ==> s.receipts[s.bodies[m].order] == s.bodies[m].eventId
    {
      AckedHasAReceipt(s, m);
      if HasOneEventId(s.bodies) { ReceiptIsItsOwn(s, m); }
    }
    if s.ready == [] && s.inflight == [] {
      forall m: MsgId | m < |s.bodies| && s.bodies[m].Placed?
        ensures s.bodies[m].order in s.receipts || (m in s.dead && s.strikes[m] == 6)
      {
        SettledOneWay(s, m);
      }
    }
  }

  // ----- checkouts keep to it by themselves -----

  /** Third parties publish nothing but poison. */
  ghost predicate OnlyPoisonBeside(es: seq<Event>) {
    forall i :: 0 <= i < |es| && es[i].PublishForeign? ==> es[i].body.Poison?
  }

  ghost predicate CheckoutsOnly(s: State)
    requires WellFormed(s)
  {
    && OursAreCommitted(s) && NamesOneOrder(s.bodies) && HasOneEventId(s.bodies)
    && forall m: MsgId :: m < |s.bodies| && s.bodies[m].Placed? ==> s.ours[m]
  }

  lemma PublishKeepsNames(s: State, b: Body)
    requires NamesOneOrder(s.bodies) && HasOneEventId(s.bodies)
    requires b.Placed? ==> forall m :: 0 <= m < |s.bodies| && s.bodies[m].Placed? ==>
      (s.bodies[m].order == b.order <==> s.bodies[m].eventId == b.eventId)
    ensures NamesOneOrder(s.bodies + [b]) && HasOneEventId(s.bodies + [b])
  {
  }

  lemma StepKeepsCheckoutsOnly(s: State, e: Event)
    requires WellFormed(s) && CheckoutsOnly(s) && (e.PublishForeign? ==> e.body.Poison?)
    ensures CheckoutsOnly(Step(s, e))
  {
    StepKeepsOurs(s, e);
    if Enabled(s, e) {
      if e.PublishPlaced? {
        PublishKeepsNames(s, Placed(e.eventId, e.order));
      } else if e.Republish? {
        PublishKeepsNames(s, s.bodies[e.msg]);
      } else if e.PublishForeign? {
        PublishKeepsNames(s, e.body);
      }
    }
  }

  lemma {:induction false} CheckoutsOnlyAlways(s: State, es: seq<Event>)
    requires WellFormed(s) && CheckoutsOnly(s) && OnlyPoisonBeside(es)
    ensures CheckoutsOnly(Exec(s, es))
    decreases |es|
  {
    if es != [] {
      StepKeepsCheckoutsOnly(s, es[0]);
      CheckoutsOnlyAlways(Step(s, es[0]), es[1..]);
    }
  }

  /** With checkouts, their repetitions and poison on the queue, every acked message's order has exactly its own receipt. */
  lemma CheckoutsGetExactlyTheirReceipts(es: seq<Event>)
    requires WellFormed(EMPTY) && OnlyPoisonBeside(es)
    ensures
      var s := Exec(EMPTY, es);
      && NamesOneOrder(s.bodies) && HasOneEventId(s.bodies)
      && (forall m: MsgId :: m < |s.bodies| && s.bodies[m].Placed? ==> s.bodies[m].order in s.orders)
      && (forall m: MsgId :: m < |s.bodies| && m in s.acked && s.bodies[m].Placed? ==>
            s.bodies[m].order in s.receipts && s.receipts[s.bodies[m].order] == s.bodies[m].eventId)
      && (s.ready == [] && s.inflight == [] ==> forall m: MsgId :: m < |s.bodies| && s.bodies[m].Placed? ==>
            s.bodies[m].order in s.receipts || (m in s.dead && s.strikes[m] == 6))
  {
    CheckoutsOnlyAlways(EMPTY, es);
    EveryOrderGetsItsReceipt(es);
  }

  // ----- why it is necessary -----

  lemma ExecOne(s: State, es: seq<Event>)
    requires WellFormed(s) && |es| == 1
    ensures Exec(s, es) == Step(s, es[0])
  {
    assert es[1..] == [];
  }

  lemma {:induction false} ExecAppend(s: State, a: seq<Event>, b: seq<Event>)
    requires WellFormed(s)
    ensures Exec(s, a + b) == Exec(Exec(s, a), b)
    decreases |a|
  {
    if a == [] {
      assert a + b == b;
    } else {
      assert (a + b)[1..] == a[1..] + b;
      ExecAppend(Step(s, a[0]), a[1..], b);
    }
  }

  /** All orders of the bodies are committed. */
  function Commits(bs: seq<Body>): seq<Event> {
    if bs == [] then []
    else
      var last := bs[|bs| - 1];
      Commits(bs[..|bs| - 1]) + if last.Placed? then [CommitOrder(last.order)] else []
  }

  function OrdersOf(bs: seq<Body>): set<OrderId> { set m | 0 <= m < |bs| && bs[m].Placed? :: bs[m].order }

  function Committed(orders: set<OrderId>): State { EMPTY.(orders := orders, unpublished := orders) }

  lemma CommitOne(orders: set<OrderId>, o: OrderId)
    ensures WellFormed(Committed(orders)) && Exec(Committed(orders), [CommitOrder(o)]) == Committed(orders + {o})
  {
    ExecOne(Committed(orders), [CommitOrder(o)]);
    if o in orders { assert orders + {o} == orders; }
  }

  lemma OrdersGrow(front: seq<Body>, last: Body)
    ensures OrdersOf(front + [last]) == OrdersOf(front) + if last.Placed? then {last.order} else {}
  {
    var bs := front + [last];
    assert bs[|front|] == last;
    forall m | 0 <= m < |front| && front[m].Placed? ensures front[m].order in OrdersOf(bs) { assert bs[m] == front[m]; }
  }

  lemma {:induction false} CommitsCommit(bs: seq<Body>)
    ensures WellFormed(EMPTY) && Exec(EMPTY, Commits(bs)) == Committed(OrdersOf(bs))
  {
    if bs != [] {
      var front, last := bs[..|bs| - 1], bs[|bs| - 1];
      CommitsCommit(front);
      OrdersGrow(front, last);
      assert front + [last] == bs;
      if last.Placed? {
        ExecAppend(EMPTY, Commits(front), [CommitOrder(last.order)]);
        CommitOne(OrdersOf(front), last.order);
      } else {
        assert Commits(front) + [] == Commits(front);
      }
    }
  }

  function Publishes(bs: seq<Body>): seq<Event> {
    if bs == [] then [] else Publishes(bs[..|bs| - 1]) + [PublishForeign(bs[|bs| - 1])]
  }

  function Zeros(n: nat): seq<nat> { seq(n, i => 0) }

  function UpTo(n: nat): seq<MsgId> { seq(n, i => i) }

  /** Everything is published and nothing delivered. */
  function Waiting(orders: set<OrderId>, bs: seq<Body>): State {
    Committed(orders).(bodies := bs, ours := seq(|bs|, i => false), strikes := Zeros(|bs|), rejects := Zeros(|bs|), ready := UpTo(|bs|))
  }

  lemma {:induction false} PublishesWait(orders: set<OrderId>, bs: seq<Body>)
    ensures WellFormed(Committed(orders)) && WellFormed(Waiting(orders, bs))
    ensures Exec(Committed(orders), Publishes(bs)) == Waiting(orders, bs)
  {
    if bs != [] {
      var front, last := bs[..|bs| - 1], bs[|bs| - 1];
      PublishesWait(orders, front);
      ExecAppend(Committed(orders), Publishes(front), [PublishForeign(last)]);
      ExecOne(Waiting(orders, front), [PublishForeign(last)]);
      OneMoreWaits(orders, front, last);
      assert front + [last] == bs;
    }
  }

  lemma OneMoreWaits(orders: set<OrderId>, front: seq<Body>, last: Body)
    ensures Publish(Waiting(orders, front), last, false) == Waiting(orders, front + [last])
  {
    var n := |front|;
    assert Zeros(n) + [0] == Zeros(n + 1);
    assert UpTo(n) + [n] == UpTo(n + 1);
    assert seq(n, i => false) + [false] == seq(n + 1, i => false);
  }

  /** One trip through the queue that meets no obstacle: delivered, applied, acked. */
  function Trip(k: nat): seq<Event> { [Deliver(0, k), Handle(0, true), Ack(0)] }

  lemma TripAcks(s: State, k: nat)
    requires WellFormed(s) && k < |s.ready| && s.inflight == [] && s.bodies[s.ready[k]].Placed?
    requires s.bodies[s.ready[k]].order in s.orders
    ensures
      var m := s.ready[k];
      Exec(s, Trip(k)) ==
        s.(ready := Without(s.ready, k), acked := s.acked + [m], receipts := InsertReceipt(s, s.bodies[m]).value)
  {
    var m, es := s.ready[k], Trip(k);
    assert Consumers([]) == [];
    var s1 := Step(s, es[0]);
    assert s1 == s.(ready := Without(s.ready, k), inflight := [Delivery(0, m, Received)]);
    var s2 := Step(s1, es[1]);
    assert s2.inflight == [Delivery(0, m, Effected)];
    var s3 := Step(s2, es[2]);
    assert s3.inflight == [];
    assert es[1..][1..] == es[2..] && es[2..][1..] == [];
    assert Exec(s2, es[2..]) == s3;
    assert Exec(s1, es[1..]) == s3;
  }

  /** Where message j waits once message i has been taken out. */
  function PlaceOf(i: nat, j: nat): nat
    requires i != j
  {
    if j < i then j else j - 1
  }

  lemma PlaceIs(n: nat, i: nat, j: nat)
    requires i < n && j < n && i != j
    ensures PlaceOf(i, j) < |Without(UpTo(n), i)| && Without(UpTo(n), i)[PlaceOf(i, j)] == j
  {
  }

  lemma SecondIsSwallowed(orders: set<OrderId>, bs: seq<Body>, i: nat, j: nat)
    requires i < |bs| && j < |bs| && bs[i].Placed? && bs[j].Placed? && {bs[i].order, bs[j].order} <= orders
    requires bs[i].eventId == bs[j].eventId && bs[i].order != bs[j].order
    ensures WellFormed(Waiting(orders, bs))
    ensures
      var s := Exec(Waiting(orders, bs), Trip(i) + Trip(PlaceOf(i, j)));
      s.bodies == bs && j in s.acked && bs[j].order in s.orders && bs[j].order !in s.receipts
  {
    var s := Waiting(orders, bs);
    PublishesWait(orders, bs);
    TripAcks(s, i);
    var s1 := Exec(s, Trip(i));
    assert s1.receipts == map[bs[i].order := bs[i].eventId];
    PlaceIs(|bs|, i, j);
    TripAcks(s1, PlaceOf(i, j));
    assert s1.receipts[bs[i].order] == bs[j].eventId;
    ExecAppend(s, Trip(i), Trip(PlaceOf(i, j)));
    assert Exec(s1, Trip(PlaceOf(i, j))).acked == [i, j];
  }

  /**
   * For any published bodies in which an event id stands for two orders, there is a run that publishes exactly them, in
   * which the second order is committed and its message acked, and the order has no receipt.
   */
  lemma ReusedEventIdLosesAReceipt(bs: seq<Body>, i: nat, j: nat) returns (es: seq<Event>)
    requires i < |bs| && j < |bs| && bs[i].Placed? && bs[j].Placed?
    requires bs[i].eventId == bs[j].eventId && bs[i].order != bs[j].order
    ensures WellFormed(EMPTY)
    ensures
      var s := Exec(EMPTY, es);
      s.bodies == bs && j in s.acked && bs[j].order in s.orders && bs[j].order !in s.receipts
  {
    var orders := OrdersOf(bs);
    CommitsCommit(bs);
    PublishesWait(orders, bs);
    SecondIsSwallowed(orders, bs, i, j);
    var trips := Trip(i) + Trip(PlaceOf(i, j));
    ExecAppend(EMPTY, Commits(bs), Publishes(bs));
    ExecAppend(EMPTY, Commits(bs) + Publishes(bs), trips);
    es := Commits(bs) + Publishes(bs) + trips;
  }

  /** Every run that publishes exactly these bodies gives each acked message's order a receipt. */
  ghost predicate AlwaysDelivers(bs: seq<Body>)
    requires WellFormed(EMPTY)
  {
    forall es: seq<Event> :: Exec(EMPTY, es).bodies == bs ==> AckedHaveReceipts(Exec(EMPTY, es))
  }

  /**
   * Exactly when an ack means a receipt, for any bodies anybody may publish: in every run that publishes them each acked
   * message's order has a receipt if and only if the event ids among the valid bodies name one order each.
   */
  lemma AcksMeanReceiptsExactlyWhen(bs: seq<Body>)
    ensures WellFormed(EMPTY)
    ensures AlwaysDelivers(bs) <==> NamesOneOrder(bs)
  {
    if NamesOneOrder(bs) {
      forall es: seq<Event> | Exec(EMPTY, es).bodies == bs ensures AckedHaveReceipts(Exec(EMPTY, es)) {
        EveryOrderGetsItsReceipt(es);
      }
    } else {
      var i: nat, j: nat :| i < |bs| && j < |bs| && bs[i].Placed? && bs[j].Placed? &&
        bs[i].eventId == bs[j].eventId && bs[i].order != bs[j].order;
      var es := ReusedEventIdLosesAReceipt(bs, i, j);
      assert !AckedHaveReceipts(Exec(EMPTY, es));
    }
  }
}

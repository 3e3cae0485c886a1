/**
 * The receipts pipeline: checkout publishes `order.placed` after COMMIT, the quorum queue delivers at least once, the
 * consumer inserts one receipt per order and acknowledges afterwards. One event per step of the broker, the consumer
 * or the database; an event that is not enabled changes nothing.
 */
module Receipts {
  import opened Wrappers

  type OrderId = nat
  type EventId = nat
  type MsgId = nat

  const PREFETCH := 10
  const DELIVERY_LIMIT := 5

  /** A message body as the consumer sees it: a valid event, or something that will never parse. */
  datatype Body = Poison | Placed(eventId: EventId, order: OrderId)

  datatype Phase = Received | Effected   // the receipt is committed, the ack is still to be sent

  datatype Delivery = Delivery(consumer: nat, msg: MsgId, phase: Phase)

  /**
   * `ours[m]` says that message m was published by a checkout, or is a repetition of one that was; `strikes[m]` counts
   * its returns that count towards the delivery limit, `rejects[m]` the explicit ones.
   */
  datatype State = State(
    orders: set<OrderId>,
    unpublished: set<OrderId>,
    bodies: seq<Body>,
    ours: seq<bool>,
    strikes: seq<nat>,
    rejects: seq<nat>,
    ready: seq<MsgId>,
    inflight: seq<Delivery>,
    acked: seq<MsgId>,
    dead: seq<MsgId>,
    receipts: map<OrderId, EventId>)

  datatype Event =
    | CommitOrder(order: OrderId)
    | PublishPlaced(order: OrderId, eventId: EventId)  // by the checkout that committed the order
    | Republish(msg: MsgId)                            // the same event once more
    | PublishForeign(body: Body)                       // anybody else
    | Deliver(consumer: nat, k: nat)
    | Handle(i: nat, databaseUp: bool)
    | Ack(i: nat)
    | Lose(i: nat, counted: bool)                      // the consumer died with this delivery in hand

  const EMPTY := State({}, {}, [], [], [], [], [], [], [], [], map[])

  function Without<T>(s: seq<T>, k: nat): seq<T>
    requires k < |s|
  {
    s[..k] + s[k + 1..]
  }

  function Consumers(ds: seq<Delivery>): seq<nat> {
    seq(|ds|, i requires 0 <= i < |ds| => ds[i].consumer)
  }

  function Msgs(ds: seq<Delivery>): seq<MsgId> {
    seq(|ds|, i requires 0 <= i < |ds| => ds[i].msg)
  }

  /** How many unacknowledged deliveries a consumer holds. */
  function Holding(ds: seq<Delivery>, c: nat): nat { multiset(Consumers(ds))[c] }

  function Publish(s: State, b: Body, ours: bool): State {
    s.(bodies := s.bodies + [b], ours := s.ours + [ours], strikes := s.strikes + [0], rejects := s.rejects + [0],
       ready := s.ready + [|s.bodies|])
  }

  predicate EventIdUsed(s: State, e: EventId) {
    exists m :: 0 <= m < |s.bodies| && s.bodies[m].Placed? && s.bodies[m].eventId == e
  }

  /** INSERT ... ON CONFLICT DO NOTHING, with the foreign key on the order; None is an error. */
  function InsertReceipt(s: State, b: Body): Option<map<OrderId, EventId>>
    requires b.Placed?
  {
    if b.order in s.receipts || b.eventId in s.receipts.Values then Some(s.receipts)
    else if b.order !in s.orders then None
    else Some(s.receipts[b.order := b.eventId])
  }

  /** The broker takes delivery i back; the one past the limit is dead-lettered. */
  function Return(s: State, i: nat, counted: bool): State
    requires i < |s.inflight| && s.inflight[i].msg < |s.strikes|
  {
    var m := s.inflight[i].msg;
    var n := s.strikes[m] + if counted then 1 else 0;
    var s' := s.(inflight := Without(s.inflight, i), strikes := s.strikes[m := n]);
    if n > DELIVERY_LIMIT then s'.(dead := s.dead + [m]) else s'.(ready := s.ready + [m])
  }

  predicate Enabled(s: State, e: Event) {
    match e
    case CommitOrder(o) => o !in s.orders
    case PublishPlaced(o, id) => o in s.unpublished && !EventIdUsed(s, id)
    case Republish(m) => m < |s.bodies|
    case PublishForeign(_) => true
    case Deliver(c, k) => k < |s.ready| && Holding(s.inflight, c) < PREFETCH
    case Handle(i, _) => i < |s.inflight| && s.inflight[i].phase == Received
    case Ack(i) => i < |s.inflight| && s.inflight[i].phase == Effected
    case Lose(i, _) => i < |s.inflight|
  }

  ghost predicate WellFormed(s: State) {
    && |s.ours| == |s.bodies| && |s.strikes| == |s.bodies| && |s.rejects| == |s.bodies|
    && (forall k :: 0 <= k < |s.ready| ==> s.ready[k] < |s.bodies|)
    && (forall i :: 0 <= i < |s.inflight| ==> s.inflight[i].msg < |s.bodies|)
  }

  function Step(s: State, e: Event): (s': State)
    requires WellFormed(s)
    ensures WellFormed(s')
  {
    if !Enabled(s, e) then s else
    match e
    case CommitOrder(o) => s.(orders := s.orders + {o}, unpublished := s.unpublished + {o})
    case PublishPlaced(o, id) => Publish(s.(unpublished := s.unpublished - {o}), Placed(id, o), true)
    case Republish(m) => Publish(s, s.bodies[m], s.ours[m])
    case PublishForeign(b) => Publish(s, b, false)
    case Deliver(c, k) =>
      s.(ready := Without(s.ready, k), inflight := s.inflight + [Delivery(c, s.ready[k], Received)])
    case Handle(i, databaseUp) =>
      var d := s.inflight[i];
      var b := s.bodies[d.msg];
      if b.Poison? then
        s.(inflight := Without(s.inflight, i), dead := s.dead + [d.msg])
      else
        var inserted := if databaseUp then InsertReceipt(s, b) else None;
        if inserted == None then
          Return(Noted(s, d.msg), i, true)
        else
          s.(receipts := inserted.value, inflight := s.inflight[i := d.(phase := Effected)])
    case Ack(i) =>
      s.(inflight := Without(s.inflight, i), acked := s.acked + [s.inflight[i].msg])
    case Lose(i, counted) =>
      Return(s, i, counted)
  }

  function Exec(s: State, es: seq<Event>): (s': State)
    requires WellFormed(s)
    ensures WellFormed(s')
    decreases |es|
  {
    if es == [] then s else Exec(Step(s, es[0]), es[1..])
  }

  // ----- conservation of messages -----

  /** Every place a message can be, with multiplicity. */
  function Everywhere(s: State): multiset<MsgId> {
    multiset(Msgs(s.inflight)) + Settled(s)
  }

  /** Everything that no consumer has in hand. */
  function Settled(s: State): multiset<MsgId> {
    multiset(s.ready) + multiset(s.acked) + multiset(s.dead)
  }

  ghost predicate Conserved(s: State) {
    forall m: MsgId :: Everywhere(s)[m] == if m < |s.bodies| then 1 else 0
  }

  lemma WithoutTakesOne<T>(s: seq<T>, k: nat)
    requires k < |s|
    ensures multiset(s) == multiset(Without(s, k)) + multiset{s[k]}
  {
    assert s == s[..k] + [s[k]] + s[k + 1..];
  }

  lemma WithoutMsgs(ds: seq<Delivery>, i: nat)
    requires i < |ds|
    ensures Msgs(Without(ds, i)) == Without(Msgs(ds), i)
    ensures Consumers(Without(ds, i)) == Without(Consumers(ds), i)
    ensures multiset(Msgs(ds)) == multiset(Msgs(Without(ds, i))) + multiset{ds[i].msg}
    ensures multiset(Consumers(Without(ds, i))) <= multiset(Consumers(ds))
  {
    assert Msgs(Without(ds, i)) == Without(Msgs(ds), i);
    assert Consumers(Without(ds, i)) == Without(Consumers(ds), i);
    WithoutTakesOne(Msgs(ds), i);
    WithoutTakesOne(Consumers(ds), i);
  }

  ghost predicate Prefetched(ds: seq<Delivery>) {
    forall c: nat :: Holding(ds, c) <= PREFETCH
  }

  ghost predicate QueueInv(s: State) {
    WellFormed(s) && Conserved(s) && Prefetched(s.inflight)
  }

  lemma PublishKeepsQueue(s: State, b: Body, ours: bool)
    requires QueueInv(s)
    ensures QueueInv(Publish(s, b, ours))
  {
    var s' := Publish(s, b, ours);
    var fresh_: MsgId := |s.bodies|;
    assert multiset(s'.ready) == multiset(s.ready) + multiset{fresh_};
    assert forall m: MsgId :: Everywhere(s')[m] == Everywhere(s)[m] + if m == |s.bodies| then 1 else 0;
  }

  lemma DeliverKeepsQueue(s: State, c: nat, k: nat)
    requires QueueInv(s) && Enabled(s, Deliver(c, k))
    ensures QueueInv(Step(s, Deliver(c, k)))
  {
    var s' := Step(s, Deliver(c, k));
    WithoutTakesOne(s.ready, k);
    assert Msgs(s'.inflight) == Msgs(s.inflight) + [s.ready[k]];
    assert Consumers(s'.inflight) == Consumers(s.inflight) + [c];
    forall d: nat ensures Holding(s'.inflight, d) <= PREFETCH { assert Holding(s.inflight, d) <= PREFETCH; }
    assert Everywhere(s') == Everywhere(s);
  }

  /** A delivery leaves the consumer's hands for exactly one other place. */
  lemma LeaveKeepsQueue(s: State, i: nat, s': State)
    requires QueueInv(s) && i < |s.inflight| && WellFormed(s')
    requires s'.bodies == s.bodies && s'.inflight == Without(s.inflight, i)
    requires Settled(s') == Settled(s) + multiset{s.inflight[i].msg}
    ensures QueueInv(s')
  {
    WithoutMsgs(s.inflight, i);
    forall c: nat ensures Holding(s'.inflight, c) <= PREFETCH { assert Holding(s.inflight, c) <= PREFETCH; }
    assert Everywhere(s') == Everywhere(s);
  }

  lemma ReturnKeepsQueue(s: State, i: nat, counted: bool)
    requires QueueInv(s) && i < |s.inflight|
    ensures QueueInv(Return(s, i, counted))
  {
    LeaveKeepsQueue(s, i, Return(s, i, counted));
  }

  /** Nothing but the phase of a delivery changed. */
  lemma EffectKeepsQueue(s: State, i: nat, s': State)
    requires QueueInv(s) && i < |s.inflight| && WellFormed(s') && s'.bodies == s.bodies && Settled(s') == Settled(s)
    requires s'.inflight == s.inflight[i := s.inflight[i].(phase := Effected)]
    ensures QueueInv(s')
  {
    assert Msgs(s'.inflight) == Msgs(s.inflight) && Consumers(s'.inflight) == Consumers(s.inflight);
    forall c: nat ensures Holding(s'.inflight, c) <= PREFETCH { assert Holding(s.inflight, c) <= PREFETCH; }
    assert Everywhere(s') == Everywhere(s);
  }

  function Noted(s: State, m: MsgId): State
    requires m < |s.rejects|
  {
    s.(rejects := s.rejects[m := s.rejects[m] + 1])
  }

  lemma RejectKeepsQueue(s: State, i: nat)
    requires QueueInv(s) && i < |s.inflight|
    ensures QueueInv(Return(Noted(s, s.inflight[i].msg), i, true))
  {
    var noted := Noted(s, s.inflight[i].msg);
    assert Everywhere(noted) == Everywhere(s);
    ReturnKeepsQueue(noted, i, true);
  }

  /** The three ways a delivery can go. */
  lemma HandleIs(s: State, i: nat, databaseUp: bool)
    requires WellFormed(s) && Enabled(s, Handle(i, databaseUp))
    ensures
      var d := s.inflight[i];
      var b := s.bodies[d.msg];
      Step(s, Handle(i, databaseUp)) ==
        if b.Poison? then s.(inflight := Without(s.inflight, i), dead := s.dead + [d.msg])
        else if databaseUp && InsertReceipt(s, b).Some? then
          s.(receipts := InsertReceipt(s, b).value, inflight := s.inflight[i := d.(phase := Effected)])
        else Return(Noted(s, d.msg), i, true)
  {
  }

  lemma HandleKeepsQueue(s: State, i: nat, databaseUp: bool)
    requires QueueInv(s) && Enabled(s, Handle(i, databaseUp))
    ensures QueueInv(Step(s, Handle(i, databaseUp)))
  {
    var s', b := Step(s, Handle(i, databaseUp)), s.bodies[s.inflight[i].msg];
    HandleIs(s, i, databaseUp);
    if b.Poison? {
      LeaveKeepsQueue(s, i, s');
    } else if databaseUp && InsertReceipt(s, b).Some? {
      EffectKeepsQueue(s, i, s');
    } else {
      RejectKeepsQueue(s, i);
    }
  }

  lemma StepKeepsQueue(s: State, e: Event)
    requires QueueInv(s)
    ensures QueueInv(Step(s, e))
  {
    if Enabled(s, e) {
      match e
      case CommitOrder(_) => assert Everywhere(Step(s, e)) == Everywhere(s);
      case PublishPlaced(o, id) =>
        var s1 := s.(unpublished := s.unpublished - {o});
        assert Everywhere(s1) == Everywhere(s);
        PublishKeepsQueue(s1, Placed(id, o), true);
      case Republish(m) => PublishKeepsQueue(s, s.bodies[m], s.ours[m]);
      case PublishForeign(b) => PublishKeepsQueue(s, b, false);
      case Deliver(c, k) => DeliverKeepsQueue(s, c, k);
      case Handle(i, up) => HandleKeepsQueue(s, i, up);
      case Ack(i) => LeaveKeepsQueue(s, i, Step(s, e));
      case Lose(i, counted) => ReturnKeepsQueue(s, i, counted);
    }
  }

  // ----- the delivery limit -----

  /** A valid message is dead-lettered exactly when its sixth counted return comes in. */
  ghost predicate LimitFor(s: State, m: MsgId)
    requires WellFormed(s) && m < |s.bodies|
  {
    && s.rejects[m] <= s.strikes[m] <= DELIVERY_LIMIT + 1
    && (m !in s.dead ==> s.strikes[m] <= DELIVERY_LIMIT)
    && (m in s.dead && s.bodies[m].Placed? ==> s.strikes[m] == DELIVERY_LIMIT + 1)
  }

  ghost predicate LimitInv(s: State)
    requires WellFormed(s)
  {
    forall m: MsgId :: m < |s.bodies| ==> LimitFor(s, m)
  }

  lemma InHandIsNotDead(s: State, i: nat)
    requires QueueInv(s) && i < |s.inflight|
    ensures s.inflight[i].msg !in s.dead
  {
    var m := s.inflight[i].msg;
    assert Everywhere(s)[m] == 1;
    assert m == Msgs(s.inflight)[i];
    assert multiset(Msgs(s.inflight))[m] >= 1;
  }

  lemma PublishKeepsLimit(s: State, b: Body, ours: bool)
    requires QueueInv(s) && LimitInv(s)
    ensures WellFormed(Publish(s, b, ours)) && LimitInv(Publish(s, b, ours))
  {
    var next: MsgId := |s.bodies|;
    assert Everywhere(s)[next] == 0;
    assert next !in s.dead;
    var s' := Publish(s, b, ours);
    forall m: MsgId | m < |s'.bodies| ensures LimitFor(s', m) {
      if m < next { assert LimitFor(s, m); }
    }
  }

  lemma ReturnKeepsLimit(s: State, i: nat, counted: bool)
    requires WellFormed(s) && i < |s.inflight| && s.inflight[i].msg !in s.dead
    requires forall m: MsgId :: m < |s.bodies| ==>
      if m == s.inflight[i].msg && counted then s.strikes[m] <= DELIVERY_LIMIT && s.rejects[m] <= s.strikes[m] + 1 else LimitFor(s, m)
    ensures WellFormed(Return(s, i, counted)) && LimitInv(Return(s, i, counted))
  {
    var s' := Return(s, i, counted);
    assert s'.dead == s.dead || s'.dead == s.dead + [s.inflight[i].msg];
    forall m: MsgId | m < |s'.bodies| ensures LimitFor(s', m) {
      assert m == s.inflight[i].msg || LimitFor(s, m);
    }
  }

  lemma HandleKeepsLimit(s: State, i: nat, up: bool)
    requires QueueInv(s) && LimitInv(s) && Enabled(s, Handle(i, up))
    ensures WellFormed(Step(s, Handle(i, up))) && LimitInv(Step(s, Handle(i, up)))
  {
    var m0 := s.inflight[i].msg;
    var s' := Step(s, Handle(i, up));
    InHandIsNotDead(s, i);
    assert LimitFor(s, m0);
    if s.bodies[m0].Placed? && |s'.inflight| != |s.inflight| {
      var noted := Noted(s, m0);
      forall m: MsgId | m < |s.bodies| && m != m0 ensures LimitFor(noted, m) { assert LimitFor(s, m); }
      ReturnKeepsLimit(noted, i, true);
    } else {
      forall m: MsgId | m < |s'.bodies| ensures LimitFor(s', m) { assert LimitFor(s, m); }
    }
  }

  lemma StepKeepsLimit(s: State, e: Event)
    requires QueueInv(s) && LimitInv(s)
    ensures WellFormed(Step(s, e)) && LimitInv(Step(s, e))
  {
    if Enabled(s, e) {
      match e
      case CommitOrder(_) => SameLimits(s, Step(s, e));
      case PublishPlaced(o, id) =>
        var s1 := s.(unpublished := s.unpublished - {o});
        SameLimits(s, s1);
        assert Everywhere(s1) == Everywhere(s);
        PublishKeepsLimit(s1, Placed(id, o), true);
      case Republish(m) => PublishKeepsLimit(s, s.bodies[m], s.ours[m]);
      case PublishForeign(b) => PublishKeepsLimit(s, b, false);
      case Deliver(c, k) =>
        DeliverKeepsQueue(s, c, k);
        SameLimits(s, Step(s, e));
      case Handle(i, up) => HandleKeepsLimit(s, i, up);
      case Ack(i) => SameLimits(s, Step(s, e));
      case Lose(i, counted) =>
        InHandIsNotDead(s, i);
        assert LimitFor(s, s.inflight[i].msg);
        ReturnKeepsLimit(s, i, counted);
    }
  }

  lemma SameLimits(s: State, s': State)
    requires WellFormed(s) && LimitInv(s) && WellFormed(s')
    requires s'.bodies == s.bodies && s'.rejects == s.rejects && s'.strikes == s.strikes && s'.dead == s.dead
    ensures LimitInv(s')
  {
    forall m: MsgId | m < |s'.bodies| ensures LimitFor(s', m) { assert LimitFor(s, m); }
  }

  // ----- receipts -----

  /** The insert for this body would change nothing any more. */
  predicate Covered(receipts: map<OrderId, EventId>, b: Body) {
    b.Placed? && (b.order in receipts || b.eventId in receipts.Values)
  }

  ghost predicate ReceiptInv(s: State)
    requires WellFormed(s)
  {
    && s.receipts.Keys <= s.orders
    && (forall o, p :: o in s.receipts && p in s.receipts && s.receipts[o] == s.receipts[p] ==> o == p)
    && (forall o :: o in s.receipts ==> Placed(s.receipts[o], o) in s.bodies)
    && (forall k :: 0 <= k < |s.acked| ==> s.acked[k] < |s.bodies| && Covered(s.receipts, s.bodies[s.acked[k]]))
    && (forall i :: 0 <= i < |s.inflight| && s.inflight[i].phase == Effected ==> Covered(s.receipts, s.bodies[s.inflight[i].msg]))
  }

  lemma CoverGrows(receipts: map<OrderId, EventId>, o: OrderId, e: EventId, b: Body)
    requires Covered(receipts, b) && o !in receipts
    ensures Covered(receipts[o := e], b)
  {
    var r' := receipts[o := e];
    if b.order !in receipts {
      var p :| p in receipts && receipts[p] == b.eventId;
      assert p in r' && r'[p] == b.eventId;
    }
  }

  lemma HandleKeepsReceipts(s: State, i: nat, databaseUp: bool)
    requires WellFormed(s) && ReceiptInv(s) && Enabled(s, Handle(i, databaseUp))
    ensures WellFormed(Step(s, Handle(i, databaseUp))) && ReceiptInv(Step(s, Handle(i, databaseUp)))
  {
    var s' := Step(s, Handle(i, databaseUp));
    var b := s.bodies[s.inflight[i].msg];
    if |s'.inflight| == |s.inflight| && s'.receipts != s.receipts {
      assert s'.receipts == s.receipts[b.order := b.eventId];
      forall j | 0 <= j < |s.bodies| && Covered(s.receipts, s.bodies[j]) ensures Covered(s'.receipts, s.bodies[j]) {
        CoverGrows(s.receipts, b.order, b.eventId, s.bodies[j]);
      }
      assert forall o :: o in s.receipts ==> s.receipts[o] in s.receipts.Values;
      assert b.order in s'.receipts;
    }
  }

  /** The table is untouched, nothing published is forgotten, and every acked or effected message is still covered. */
  lemma SameReceipts(s: State, s': State)
    requires WellFormed(s) && ReceiptInv(s) && WellFormed(s') && s'.receipts == s.receipts
    requires s.orders <= s'.orders && s.bodies <= s'.bodies
    requires forall k :: 0 <= k < |s'.acked| ==> s'.acked[k] < |s.bodies| && Covered(s.receipts, s.bodies[s'.acked[k]])
    requires forall i :: 0 <= i < |s'.inflight| && s'.inflight[i].phase == Effected ==>
      s'.inflight[i].msg < |s.bodies| && Covered(s.receipts, s.bodies[s'.inflight[i].msg])
    ensures ReceiptInv(s')
  {
    forall o | o in s.receipts ensures Placed(s.receipts[o], o) in s'.bodies {
      var k :| 0 <= k < |s.bodies| && s.bodies[k] == Placed(s.receipts[o], o);
      assert s'.bodies[k] == s.bodies[k];
    }
  }

  lemma StepKeepsReceipts(s: State, e: Event)
    requires WellFormed(s) && ReceiptInv(s)
    requires WellFormed(Step(s, e))
    ensures ReceiptInv(Step(s, e))
  {
    if Enabled(s, e) {
      if e.Handle? {
        HandleKeepsReceipts(s, e.i, e.databaseUp);
      } else {
        SameReceipts(s, Step(s, e));
      }
    }
  }

  ghost predicate Inv(s: State) {
    QueueInv(s) && LimitInv(s) && ReceiptInv(s)
  }

  lemma {:induction false} InvAlways(s: State, es: seq<Event>)
    requires Inv(s)
    ensures Inv(Exec(s, es))
    decreases |es|
  {
    if es != [] {
      StepKeepsQueue(s, es[0]);
      StepKeepsLimit(s, es[0]);
      StepKeepsReceipts(s, es[0]);
      InvAlways(Step(s, es[0]), es[1..]);
    }
  }

  lemma EmptyInv()
    ensures WellFormed(EMPTY) && Inv(EMPTY)
  {
    assert Msgs([]) == [] && Consumers([]) == [];
  }

  /**
   * Message conservation, for every run with crashes, redeliveries, republishing and foreign publishers: each message
   * is in exactly one place (ready, in one consumer's hands, acked or dead-lettered), a consumer holds at most
   * ten, at most six deliveries of a message end in a requeue-reject, and a valid message is dead-lettered only
   * after six counted returns.
   */
  lemma MessagesAreConserved(es: seq<Event>)
    ensures WellFormed(EMPTY)
    ensures
      var s := Exec(EMPTY, es);
      && (forall m: MsgId :: Everywhere(s)[m] == if m < |s.bodies| then 1 else 0)
      && (forall c: nat :: Holding(s.inflight, c) <= 10)
      && (forall m: MsgId :: m < |s.bodies| ==> s.rejects[m] <= 6)
      && (forall m: MsgId :: m < |s.bodies| && m in s.dead && s.bodies[m].Placed? ==> s.strikes[m] == 6)
  {
    EmptyInv();
    InvAlways(EMPTY, es);
    var s := Exec(EMPTY, es);
    forall m: MsgId | m < |s.bodies|
      ensures s.rejects[m] <= 6
      ensures m in s.dead && s.bodies[m].Placed? ==> s.strikes[m] == 6
    {
      assert LimitFor(s, m);
    }
  }

  /**
   * Exactly-once effect over at-least-once delivery, for the same runs: a receipt refers to a committed order and was
   * asked for by a published event; no event gives two receipts; only valid messages are acked, and once one is, its
   * order has a receipt or its event id already gave one to another order.
   */
  lemma ReceiptsAreSound(es: seq<Event>)
    ensures WellFormed(EMPTY)
    ensures
      var s := Exec(EMPTY, es);
      && s.receipts.Keys <= s.orders
      && (forall o :: o in s.receipts ==> Placed(s.receipts[o], o) in s.bodies)
      && (forall o, p :: o in s.receipts && p in s.receipts && s.receipts[o] == s.receipts[p] ==> o == p)
      && (forall m :: m in s.acked ==> m < |s.bodies| && Covered(s.receipts, s.bodies[m]))
  {
    EmptyInv();
    InvAlways(EMPTY, es);
  }

  // ----- what does not have to wait -----

  /** Only a full consumer keeps a ready message waiting; with room for it, it is in the consumer's hands next. */
  lemma DeliveryWaitsOnlyForRoom(s: State, c: nat, k: nat)
    requires WellFormed(s) && k < |s.ready|
    ensures
      var s' := Step(s, Deliver(c, k));
      if Holding(s.inflight, c) < 10 then
        && s'.inflight == s.inflight + [Delivery(c, s.ready[k], Received)]
        && s'.ready == s.ready[..k] + s.ready[k + 1..]
      else s' == s
  {
  }

  /** A message can be repeated at any time, as a message of its own with the same body, and anybody may publish anything. */
  lemma AnythingCanBePublished(s: State, m: MsgId, b: Body)
    requires WellFormed(s)
    ensures m < |s.bodies| ==>
      var s' := Step(s, Republish(m));
      s'.bodies == s.bodies + [s.bodies[m]] && s'.ready == s.ready + [|s.bodies|] && s'.inflight == s.inflight
    ensures
      var s' := Step(s, PublishForeign(b));
      s'.bodies == s.bodies + [b] && s'.ready == s.ready + [|s.bodies|] && s'.inflight == s.inflight
  {
  }

  /** A consumer may die with any delivery in hand; the message goes back, or to the dead letters when it has used up its returns. */
  lemma AnyDeliveryCanBeLost(s: State, i: nat, counted: bool)
    requires WellFormed(s) && i < |s.inflight|
    ensures
      var m, s' := s.inflight[i].msg, Step(s, Lose(i, counted));
      && s'.inflight == s.inflight[..i] + s.inflight[i + 1..] && s'.receipts == s.receipts && s'.acked == s.acked
      && if s.strikes[m] + (if counted then 1 else 0) > 5 then s'.dead == s.dead + [m] && s'.ready == s.ready
         else s'.ready == s.ready + [m] && s'.dead == s.dead
  {
  }
}

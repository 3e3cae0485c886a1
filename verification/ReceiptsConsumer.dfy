/**
 * The consumer process of the receipts queue, as the code that handles one delivery: it writes the receipts table and
 * answers the broker once, or dies between the two. Each answer is tied to the steps of the pipeline it stands for.
 */
module ReceiptsConsumer {
  import opened Wrappers
  import opened Receipts
  import opened ReceiptGuarantees

  /** What the broker gets to see of one delivery. */
  datatype Answer = AckSent | RejectedForGood | Requeued | Died

  datatype Applied = NoInsert | NewReceipt | Duplicate

  class Consumer {
    const orders: set<OrderId>
    var receipts: map<OrderId, EventId>

    constructor (orders: set<OrderId>)
      ensures this.orders == orders && receipts == map[]
    {
      this.orders := orders;
      receipts := map[];
    }

    /** The INSERT; None is an exception (the database is down, or the order does not exist). */
    method IssueReceipt(order: OrderId, eventId: EventId, databaseUp: bool) returns (applied: Option<bool>)
      modifies this`receipts
      ensures applied.None? ==> receipts == old(receipts)
      ensures applied.None? <==> !databaseUp || (!Conflict(old(receipts), order, eventId) && order !in orders)
      ensures applied.Some? ==> applied.value == !Conflict(old(receipts), order, eventId)
      ensures applied.Some? ==> receipts == if applied.value then old(receipts)[order := eventId] else old(receipts)
    {
      if !databaseUp {
        return None;
      }
      if Conflict(receipts, order, eventId) {
        return Some(false);
      }
      if order !in orders {
        return None;
      }
      receipts := receipts[order := eventId];
      return Some(true);
    }

    /** `handle`: the effect is committed before the ack is sent. */
    method HandleMessage(b: Body, databaseUp: bool, crashAfterEffect: bool) returns (answer: Answer, applied: Applied)
      modifies this`receipts
      ensures answer == AnswerTo(orders, old(receipts), b, databaseUp, crashAfterEffect)
      ensures receipts == AfterHandling(orders, old(receipts), b, databaseUp)
      ensures applied.NewReceipt? <==> receipts != old(receipts)
      ensures answer == AckSent ==> !applied.NoInsert? && Covered(receipts, b)
    {
      if b.Poison? {
        return RejectedForGood, NoInsert;
      }
      var inserted := IssueReceipt(b.order, b.eventId, databaseUp);
      if inserted.None? {
        return Requeued, NoInsert;
      }
      applied := if inserted.value then NewReceipt else Duplicate;
      if crashAfterEffect {
        return Died, applied;
      }
      return AckSent, applied;
    }
  }

  /** Either unique constraint of the table. */
  predicate Conflict(receipts: map<OrderId, EventId>, order: OrderId, eventId: EventId) {
    order in receipts || eventId in receipts.Values
  }

  /** The INSERT goes through, with or without a new row. */
  predicate Insertable(orders: set<OrderId>, receipts: map<OrderId, EventId>, b: Body, databaseUp: bool) {
    b.Placed? && databaseUp && (Conflict(receipts, b.order, b.eventId) || b.order in orders)
  }

  function AnswerTo(orders: set<OrderId>, receipts: map<OrderId, EventId>, b: Body, databaseUp: bool, crashAfterEffect: bool): Answer {
    if b.Poison? then RejectedForGood
    else if !Insertable(orders, receipts, b, databaseUp) then Requeued
    else if crashAfterEffect then Died
    else AckSent
  }

  function AfterHandling(orders: set<OrderId>, receipts: map<OrderId, EventId>, b: Body, databaseUp: bool): map<OrderId, EventId> {
    if Insertable(orders, receipts, b, databaseUp) && !Conflict(receipts, b.order, b.eventId) then receipts[b.order := b.eventId]
    else receipts
  }

  /** The steps of the pipeline one answer stands for; the broker may or may not count a lost delivery. */
  function Steps(i: nat, databaseUp: bool, answer: Answer, counted: bool): seq<Event> {
    match answer
    case AckSent => [Handle(i, databaseUp), Ack(i)]
    case Died => [Handle(i, databaseUp), Lose(i, counted)]
    case _ => [Handle(i, databaseUp)]
  }

  /** Where the message of delivery i ends up. */
  ghost predicate Disposed(s: State, s': State, i: nat, answer: Answer)
    requires i < |s.inflight|
  {
    var m := s.inflight[i].msg;
    && s'.inflight == Without(s.inflight, i)
    && match answer
       case AckSent => s'.acked == s.acked + [m] && s'.dead == s.dead && s'.ready == s.ready
       case RejectedForGood => s'.dead == s.dead + [m] && s'.acked == s.acked && s'.ready == s.ready
       case _ =>
         && s'.acked == s.acked
         && ((s'.ready == s.ready + [m] && s'.dead == s.dead) || (s'.ready == s.ready && s'.dead == s.dead + [m]))
  }

  /**
   * Handling delivery i leaves the receipts table as the code above does and takes the message out of the consumer's
   * hands: acked, back to the queue, or dead-lettered, and acked only when the INSERT went through.
   */
  lemma HandlingIsTheMachine(s: State, i: nat, databaseUp: bool, crashAfterEffect: bool, counted: bool)
    requires WellFormed(s) && i < |s.inflight| && s.inflight[i].phase == Received
    ensures
      var b := s.bodies[s.inflight[i].msg];
      var answer := AnswerTo(s.orders, s.receipts, b, databaseUp, crashAfterEffect);
      var s' := Exec(s, Steps(i, databaseUp, answer, counted));
      && s'.receipts == AfterHandling(s.orders, s.receipts, b, databaseUp)
      && Disposed(s, s', i, answer)
  {
    var b := s.bodies[s.inflight[i].msg];
    if Insertable(s.orders, s.receipts, b, databaseUp) {
      InsertedIsTheMachine(s, i, databaseUp, crashAfterEffect, counted);
    } else {
      ExecOne(s, [Handle(i, databaseUp)]);
      RefusedIsTheMachine(s, i, databaseUp);
    }
  }

  lemma RefusedIsTheMachine(s: State, i: nat, databaseUp: bool)
    requires WellFormed(s) && i < |s.inflight| && s.inflight[i].phase == Received
    requires !Insertable(s.orders, s.receipts, s.bodies[s.inflight[i].msg], databaseUp)
    ensures
      var s' := Step(s, Handle(i, databaseUp));
      s'.receipts == s.receipts &&
      Disposed(s, s', i, if s.bodies[s.inflight[i].msg].Poison? then RejectedForGood else Requeued)
  {
  }

  lemma InsertedIsTheMachine(s: State, i: nat, databaseUp: bool, crashed: bool, counted: bool)
    requires WellFormed(s) && i < |s.inflight| && s.inflight[i].phase == Received
    requires Insertable(s.orders, s.receipts, s.bodies[s.inflight[i].msg], databaseUp)
    ensures
      var answer := if crashed then Died else AckSent;
      var s' := Exec(s, Steps(i, databaseUp, answer, counted));
      && s'.receipts == AfterHandling(s.orders, s.receipts, s.bodies[s.inflight[i].msg], databaseUp)
      && Disposed(s, s', i, answer)
  {
    var after := if crashed then Lose(i, counted) else Ack(i);
    var es := [Handle(i, databaseUp), after];
    var s1 := Step(s, es[0]);
    EffectFirst(s, i, databaseUp);
    assert es[1..] == [after];
    ExecOne(s1, [after]);
    assert Exec(s, es) == Step(s1, after);
    if crashed { LostAfterEffect(s, s1, i, counted); } else { AckedAfterEffect(s, s1, i); }
  }

  /** The INSERT is committed while the delivery is still unacknowledged. */
  lemma EffectFirst(s: State, i: nat, databaseUp: bool)
    requires WellFormed(s) && i < |s.inflight| && s.inflight[i].phase == Received
    requires Insertable(s.orders, s.receipts, s.bodies[s.inflight[i].msg], databaseUp)
    ensures Step(s, Handle(i, databaseUp)) ==
      s.(receipts := AfterHandling(s.orders, s.receipts, s.bodies[s.inflight[i].msg], databaseUp),
         inflight := s.inflight[i := s.inflight[i].(phase := Effected)])
  {
  }

  lemma AckedAfterEffect(s: State, s1: State, i: nat)
    requires WellFormed(s1) && i < |s.inflight|
    requires s1 == s.(receipts := s1.receipts, inflight := s.inflight[i := s.inflight[i].(phase := Effected)])
    ensures Step(s1, Ack(i)).receipts == s1.receipts && Disposed(s, Step(s1, Ack(i)), i, AckSent)
  {
    assert Without(s1.inflight, i) == Without(s.inflight, i);
  }

  lemma LostAfterEffect(s: State, s1: State, i: nat, counted: bool)
    requires WellFormed(s1) && i < |s.inflight|
    requires s1 == s.(receipts := s1.receipts, inflight := s.inflight[i := s.inflight[i].(phase := Effected)])
    ensures Step(s1, Lose(i, counted)).receipts == s1.receipts && Disposed(s, Step(s1, Lose(i, counted)), i, Died)
  {
    assert Without(s1.inflight, i) == Without(s.inflight, i);
  }
}

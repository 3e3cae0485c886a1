/**
 * The Idempotency-Key store: requests arrive, handlers finish, connections drop and the clock advances in any order.
 * A fingerprint stands for the request body it is an injective hash of.
 */
module Idempotency {
  import opened Wrappers

  const TTL_MS: nat := 24 * 60 * 60 * 1000
  const CREATED: nat := 201

  type Fingerprint = nat
  type Body = nat

  datatype Record =
    | InFlight(fingerprint: Fingerprint, expiresAt: nat)
    | Done(fingerprint: Fingerprint, body: Body, expiresAt: nat)

  type Store = map<string, Record>

  datatype Request = Request(post: bool, rawKey: Option<string>, user: Option<string>, fingerprint: Fingerprint)

  datatype Outcome = PassThrough | Started | KeyReuse | StillInFlight | Replay(body: Body)

  function KeyOf(user: string, rawKey: string): string { user + ":" + rawKey }

  predicate Keyed(q: Request) { q.post && q.rawKey.Some? && q.rawKey.value != "" && q.user.Some? }

  /** The store once an expired record of the key is dropped. */
  function Live(store: Store, now: nat, key: string): Store {
    if key in store && store[key].expiresAt <= now then store - {key} else store
  }

  function OutcomeOf(store: Store, now: nat, key: string, fp: Fingerprint): Outcome {
    var live := Live(store, now, key);
    if key !in live then Started
    else if live[key].fingerprint != fp then KeyReuse
    else if live[key].InFlight? then StillInFlight
    else Replay(live[key].body)
  }

  function Admit(store: Store, now: nat, key: string, fp: Fingerprint): Store {
    var live := Live(store, now, key);
    if key in live then live else live[key := InFlight(fp, now + TTL_MS)]
  }

  function Settle(store: Store, now: nat, key: string, fp: Fingerprint, status: nat, body: Body): Store {
    if status == CREATED then store[key := Done(fp, body, now + TTL_MS)] else store - {key}
  }

  /**
   * The four answers: without a live record the handler starts and the key is taken for a day; with one, the store stays
   * as it is, another body is refused as a reuse, and the same body is told to wait or given the stored response.
   */
  predicate Answers(store: Store, after: Store, now: nat, key: string, fp: Fingerprint, o: Outcome) {
    if key !in store || store[key].expiresAt <= now then
      o == Started && after == store[key := InFlight(fp, now + 86_400_000)]
    else
      && after == store
      && match store[key]
         case InFlight(f, _) => o == if f == fp then StillInFlight else KeyReuse
         case Done(f, body, _) => o == if f == fp then Replay(body) else KeyReuse
  }

  /** The interceptor, with the module-level store it mutates. */
  class IdempotencyInterceptor {
    var store: Store

    constructor ()
      ensures store == map[]
    {
      store := map[];
    }

    method Intercept(now: nat, q: Request) returns (o: Outcome)
      modifies this
      ensures !Keyed(q) ==> o == PassThrough && store == old(store)
      ensures Keyed(q) ==> o == OutcomeOf(old(store), now, KeyOf(q.user.value, q.rawKey.value), q.fingerprint)
      ensures Keyed(q) ==> store == Admit(old(store), now, KeyOf(q.user.value, q.rawKey.value), q.fingerprint)
      ensures o == PassThrough <==> !q.post || q.user == None || q.rawKey == None || q.rawKey == Some("")
      ensures o != PassThrough ==> Answers(old(store), store, now, q.user.value + ":" + q.rawKey.value, q.fingerprint, o)
    {
      if !q.post || q.rawKey.None? || |q.rawKey.value| == 0 || q.user.None? {
        return PassThrough;
      }
      var key := KeyOf(q.user.value, q.rawKey.value);
      var rec := if key in store then Some(store[key]) else None;
      if rec.Some? && rec.value.expiresAt <= now {
        store := store - {key};
        rec := None;
      }
      if rec.Some? {
        if rec.value.fingerprint != q.fingerprint {
          return KeyReuse;
        }
        if rec.value.InFlight? {
          return StillInFlight;
        }
        return Replay(rec.value.body);
      }
      store := store[key := InFlight(q.fingerprint, now + TTL_MS)];
      return Started;
    }

    method OnFinish(now: nat, key: string, fp: Fingerprint, status: nat, captured: Body)
      modifies this
      ensures store == Settle(old(store), now, key, fp, status, captured)
      ensures status == 201 ==> store == old(store)[key := Done(fp, captured, now + 86_400_000)]
      ensures status != 201 ==> store == old(store) - {key}
    {
      if status == CREATED {
        store := store[key := Done(fp, captured, now + TTL_MS)];
      } else {
        store := store - {key};
      }
    }
  }

  // ----- all requests at once -----

  /** A running handler; once its connection is lost it runs on, but its response never finishes. */
  datatype Handler = Handler(user: string, rawKey: string, fingerprint: Fingerprint, startedAt: nat, connected: bool)

  /** A 201 that went out: a handler's own, or a replayed one. */
  datatype Response = Response(user: string, rawKey: string, fingerprint: Fingerprint, body: Body, at: nat, replayed: bool)

  datatype State = State(now: nat, store: Store, running: map<nat, Handler>, log: seq<Response>)

  /** `Drop` is a connection that closes early: the handler runs on to its `Finish`, the response's callback never fires. */
  datatype Event = Arrive(r: nat, q: Request) | Finish(r: nat, status: nat, body: Body) | Drop(r: nat) | Tick(ms: nat)

  function HandlerKey(h: Handler): string { KeyOf(h.user, h.rawKey) }

  function KeyIn(x: Response): string { KeyOf(x.user, x.rawKey) }

  function QueryKey(q: Request): string
    requires Keyed(q)
  {
    KeyOf(q.user.value, q.rawKey.value)
  }

  function HandlerOf(q: Request, now: nat): Handler
    requires Keyed(q)
  {
    Handler(q.user.value, q.rawKey.value, q.fingerprint, now, true)
  }

  function ReplayOf(q: Request, body: Body, now: nat): Response
    requires Keyed(q)
  {
    Response(q.user.value, q.rawKey.value, q.fingerprint, body, now, true)
  }

  function ArriveStep(s: State, r: nat, q: Request): State
    requires Keyed(q)
  {
    var o := OutcomeOf(s.store, s.now, QueryKey(q), q.fingerprint);
    State(s.now, Admit(s.store, s.now, QueryKey(q), q.fingerprint),
          if o.Started? then s.running[r := HandlerOf(q, s.now)] else s.running,
          if o.Replay? then s.log + [ReplayOf(q, o.body, s.now)] else s.log)
  }

  function FinishStep(s: State, r: nat, status: nat, body: Body): State
    requires r in s.running && s.running[r].connected
  {
    var h := s.running[r];
    State(s.now, Settle(s.store, s.now, HandlerKey(h), h.fingerprint, status, body), s.running - {r},
          if status == CREATED then s.log + [Response(h.user, h.rawKey, h.fingerprint, body, s.now, false)] else s.log)
  }

  function Step(s: State, e: Event): State {
    match e
    case Arrive(r, q) => if r in s.running || !Keyed(q) then s else ArriveStep(s, r, q)
    case Finish(r, status, body) =>
      if r !in s.running then s
      else if s.running[r].connected then FinishStep(s, r, status, body)
      else s.(running := s.running - {r})
    case Drop(r) => if r !in s.running then s else s.(running := s.running[r := s.running[r].(connected := false)])
    case Tick(ms) => s.(now := s.now + ms)
  }

  function Exec(s: State, es: seq<Event>): State
    decreases |es|
  {
    if es == [] then s else Exec(Step(s, es[0]), es[1..])
  }

  function Init(now: nat): State { State(now, map[], map[], []) }

  // ----- at most one handler per key, exactly when nobody re-sends a key over an overdue handler -----

  ghost predicate OneHandlerPerKey(s: State) {
    forall r, r' :: r in s.running && r' in s.running && r != r' ==> HandlerKey(s.running[r]) != HandlerKey(s.running[r'])
  }

  ghost predicate AlwaysOneHandlerPerKey(s: State, es: seq<Event>)
    decreases |es|
  {
    OneHandlerPerKey(s) && (es != [] ==> AlwaysOneHandlerPerKey(Step(s, es[0]), es[1..]))
  }

  predicate Overdue(h: Handler, now: nat) { h.startedAt + TTL_MS <= now }

  /** This keyed request comes while a handler of its key has been running for the whole TTL. */
  ghost predicate OverOverdue(s: State, e: Event) {
    && e.Arrive? && Keyed(e.q) && e.r !in s.running
    && exists r :: r in s.running && HandlerKey(s.running[r]) == QueryKey(e.q) && Overdue(s.running[r], s.now)
  }

  ghost predicate NeverOverOverdue(s: State, es: seq<Event>)
    decreases |es|
  {
    es != [] ==> !OverOverdue(s, es[0]) && NeverOverOverdue(Step(s, es[0]), es[1..])
  }

  /** Every handler's record is in the store, in flight, as it was put there. */
  ghost predicate RecordsHeld(s: State) {
    forall r :: r in s.running ==> Holds(s.store, s.running[r])
  }

  predicate Holds(store: Store, h: Handler) {
    HandlerKey(h) in store && store[HandlerKey(h)] == InFlight(h.fingerprint, h.startedAt + TTL_MS)
  }

  lemma ArriveKeepsHandlers(s: State, r: nat, q: Request)
    requires RecordsHeld(s) && OneHandlerPerKey(s) && Keyed(q) && r !in s.running && !OverOverdue(s, Arrive(r, q))
    ensures RecordsHeld(ArriveStep(s, r, q)) && OneHandlerPerKey(ArriveStep(s, r, q))
  {
    var s', key := ArriveStep(s, r, q), QueryKey(q);
    forall i | i in s.running ensures HandlerKey(s.running[i]) == key ==> key in Live(s.store, s.now, key) {
      assert Holds(s.store, s.running[i]);
    }
    forall i | i in s'.running ensures Holds(s'.store, s'.running[i]) {
      if i in s.running { assert Holds(s.store, s.running[i]); }
    }
  }

  lemma FinishKeepsHandlers(s: State, r: nat, status: nat, body: Body)
    requires RecordsHeld(s) && OneHandlerPerKey(s) && r in s.running && s.running[r].connected
    ensures RecordsHeld(FinishStep(s, r, status, body)) && OneHandlerPerKey(FinishStep(s, r, status, body))
  {
    var s' := FinishStep(s, r, status, body);
    forall i | i in s'.running ensures Holds(s'.store, s'.running[i]) {
      assert Holds(s.store, s.running[i]);
      assert HandlerKey(s.running[i]) != HandlerKey(s.running[r]);
    }
  }

  lemma StepKeepsHandlers(s: State, e: Event)
    requires RecordsHeld(s) && OneHandlerPerKey(s) && !OverOverdue(s, e)
    ensures RecordsHeld(Step(s, e)) && OneHandlerPerKey(Step(s, e))
  {
    match e
    case Arrive(r, q) => if r !in s.running && Keyed(q) { ArriveKeepsHandlers(s, r, q); }
    case Finish(r, status, body) => if r in s.running && s.running[r].connected { FinishKeepsHandlers(s, r, status, body); }
    case Drop(r) =>
      forall i | i in s.running ensures Holds(s.store, s.running[i]) && HandlerKey(Step(s, e).running[i]) == HandlerKey(s.running[i]) {}
    case Tick(_) =>
  }

  /** A keyed request that comes over an overdue handler is started beside it. */
  lemma OverOverdueStartsASecond(s: State, e: Event)
    requires RecordsHeld(s) && OverOverdue(s, e)
    ensures !OneHandlerPerKey(Step(s, e))
  {
    var r :| r in s.running && HandlerKey(s.running[r]) == QueryKey(e.q) && Overdue(s.running[r], s.now);
    assert Holds(s.store, s.running[r]);
    var s' := Step(s, e);
    assert r in s'.running && e.r in s'.running;
    assert HandlerKey(s'.running[r]) == HandlerKey(s'.running[e.r]);
  }

  lemma {:induction false} OneHandlerFrom(s: State, es: seq<Event>)
    requires RecordsHeld(s) && OneHandlerPerKey(s)
    ensures AlwaysOneHandlerPerKey(s, es) <==> NeverOverOverdue(s, es)
    decreases |es|
  {
    if es != [] {
      if OverOverdue(s, es[0]) {
        OverOverdueStartsASecond(s, es[0]);
      } else {
        StepKeepsHandlers(s, es[0]);
        OneHandlerFrom(Step(s, es[0]), es[1..]);
      }
    }
  }

  /** Over every run from an empty store, both directions. */
  lemma OneHandlerPerKeyExactlyWhen(now: nat, es: seq<Event>)
    ensures AlwaysOneHandlerPerKey(Init(now), es) <==> NeverOverOverdue(Init(now), es)
  {
    OneHandlerFrom(Init(now), es);
  }

  /** Every handler is gone before its TTL is over. */
  ghost predicate Timely(s: State, es: seq<Event>)
    decreases |es|
  {
    && (forall r :: r in s.running ==> !Overdue(s.running[r], s.now))
    && (es != [] ==> Timely(Step(s, es[0]), es[1..]))
  }

  /** What the interceptor is for: requests that finish within the TTL never run twice at once. */
  lemma {:induction false} TimelyHandlersNeverOverlap(s: State, es: seq<Event>)
    requires RecordsHeld(s) && OneHandlerPerKey(s) && Timely(s, es)
    ensures AlwaysOneHandlerPerKey(s, es) && NeverOverOverdue(s, es)
    decreases |es|
  {
    if es != [] {
      assert !OverOverdue(s, es[0]);
      StepKeepsHandlers(s, es[0]);
      TimelyHandlersNeverOverlap(Step(s, es[0]), es[1..]);
    }
  }

  /**
   * While a handler runs within its TTL, whatever came before (as long as no key was re-sent over an overdue handler),
   * its key is taken: the same body is told that the request is still in flight, another body that the key is reused,
   * and nothing in the store changes.
   */
  lemma RunningHandlersHoldTheirKey(now: nat, es: seq<Event>, r: nat, fp: Fingerprint)
    requires NeverOverOverdue(Init(now), es) && r in Exec(Init(now), es).running
    requires Exec(Init(now), es).now < Exec(Init(now), es).running[r].startedAt + 24 * 60 * 60 * 1000
    ensures
      var s := Exec(Init(now), es);
      var key := s.running[r].user + ":" + s.running[r].rawKey;
      && OutcomeOf(s.store, s.now, key, fp) == (if fp == s.running[r].fingerprint then StillInFlight else KeyReuse)
      && Admit(s.store, s.now, key, fp) == s.store
  {
    HandlersAlways(Init(now), es);
    assert Holds(Exec(Init(now), es).store, Exec(Init(now), es).running[r]);
  }

  lemma {:induction false} HandlersAlways(s: State, es: seq<Event>)
    requires RecordsHeld(s) && OneHandlerPerKey(s) && NeverOverOverdue(s, es)
    ensures RecordsHeld(Exec(s, es)) && OneHandlerPerKey(Exec(s, es))
    decreases |es|
  {
    if es != [] {
      StepKeepsHandlers(s, es[0]);
      HandlersAlways(Step(s, es[0]), es[1..]);
    }
  }

  /**
   * A handler whose connection is lost runs on: nothing but the connection changes, and when it ends it leaves the store
   * and what was sent as they were.
   */
  lemma LostHandlersRunOn(s: State, r: nat, status: nat, body: Body)
    requires r in s.running
    ensures
      var s1 := Step(s, Drop(r));
      var s2 := Step(s1, Finish(r, status, body));
      && s1.running == s.running[r := s.running[r].(connected := false)]
      && s1.store == s.store && s1.log == s.log && s1.now == s.now
      && s2.running == s.running - {r} && s2.store == s.store && s2.log == s.log
  {
  }

  /** A request for which a response is stored is sent that response at once, and no handler runs. */
  lemma StoredResponsesAreSent(s: State, r: nat, q: Request)
    requires r !in s.running && Keyed(q)
    requires var key := q.user.value + ":" + q.rawKey.value;
      key in s.store && s.store[key].Done? && s.store[key].fingerprint == q.fingerprint && s.now < s.store[key].expiresAt
    ensures
      var s' := Step(s, Arrive(r, q));
      && s'.running == s.running && s'.store == s.store
      && s'.log == s.log + [Response(q.user.value, q.rawKey.value, q.fingerprint,
                                     s.store[q.user.value + ":" + q.rawKey.value].body, s.now, true)]
  {
  }

  // ----- the operation is carried out once per TTL -----

  /** No handler's own 201 for this key is younger than the TTL at the given time. */
  ghost predicate AllAged(log: seq<Response>, key: string, time: nat) {
    forall i :: 0 <= i < |log| && !log[i].replayed && KeyIn(log[i]) == key ==> log[i].at + TTL_MS <= time
  }

  /** While a handler's own 201 is younger than the TTL, its record is the key's. */
  ghost predicate YoungAreStored(s: State) {
    forall i :: 0 <= i < |s.log| && !s.log[i].replayed ==> Stored(s, s.log[i])
  }

  predicate Stored(s: State, x: Response) {
    || x.at + TTL_MS <= s.now
    || (KeyIn(x) in s.store && s.store[KeyIn(x)] == Done(x.fingerprint, x.body, x.at + TTL_MS))
  }

  ghost predicate StartedAfterAged(s: State) {
    forall r :: r in s.running ==> s.running[r].startedAt <= s.now && AllAged(s.log, HandlerKey(s.running[r]), s.running[r].startedAt)
  }

  /** Two handlers' own 201s for one key are a TTL apart. */
  ghost predicate OncePerTtl(log: seq<Response>) {
    forall i, j :: 0 <= i < j < |log| && !log[i].replayed && !log[j].replayed && KeyIn(log[i]) == KeyIn(log[j]) ==>
      log[i].at + TTL_MS <= log[j].at
  }

  ghost predicate OnceInv(s: State) {
    && RecordsHeld(s) && OneHandlerPerKey(s)
    && YoungAreStored(s) && StartedAfterAged(s) && OncePerTtl(s.log)
  }

  /** A key without a live record has only aged 201s. */
  lemma FreeKeyIsAged(s: State, key: string)
    requires YoungAreStored(s) && key !in Live(s.store, s.now, key)
    ensures AllAged(s.log, key, s.now)
  {
    forall i | 0 <= i < |s.log| && !s.log[i].replayed && KeyIn(s.log[i]) == key ensures s.log[i].at + TTL_MS <= s.now {
      assert Stored(s, s.log[i]);
    }
  }

  lemma ReplayKeepsAged(log: seq<Response>, x: Response, key: string, time: nat)
    requires AllAged(log, key, time) && (x.replayed || KeyIn(x) != key)
    ensures AllAged(log + [x], key, time)
  {
  }

  lemma ReplayKeepsOnce(log: seq<Response>, x: Response)
    requires OncePerTtl(log) && x.replayed
    ensures OncePerTtl(log + [x])
  {
  }

  lemma OriginalKeepsOnce(log: seq<Response>, x: Response)
    requires OncePerTtl(log) && AllAged(log, KeyIn(x), x.at)
    ensures OncePerTtl(log + [x])
  {
  }

  lemma ArriveKeepsOnce(s: State, r: nat, q: Request)
    requires OnceInv(s) && Keyed(q) && r !in s.running
    ensures YoungAreStored(ArriveStep(s, r, q)) && StartedAfterAged(ArriveStep(s, r, q)) && OncePerTtl(ArriveStep(s, r, q).log)
  {
    var s', key := ArriveStep(s, r, q), QueryKey(q);
    var o := OutcomeOf(s.store, s.now, key, q.fingerprint);
    if o.Started? { FreeKeyIsAged(s, key); }
    if o.Replay? { ReplayKeepsOnce(s.log, ReplayOf(q, o.body, s.now)); }
    forall i | i in s'.running ensures s'.running[i].startedAt <= s'.now && AllAged(s'.log, HandlerKey(s'.running[i]), s'.running[i].startedAt) {
      if o.Replay? {
        ReplayKeepsAged(s.log, ReplayOf(q, o.body, s.now), HandlerKey(s.running[i]), s.running[i].startedAt);
      }
    }
    forall i | 0 <= i < |s'.log| && !s'.log[i].replayed ensures Stored(s', s'.log[i]) {
      assert s'.log[i] == s.log[i] && Stored(s, s.log[i]);
    }
  }

  lemma FinishKeepsOnce(s: State, r: nat, status: nat, body: Body)
    requires OnceInv(s) && r in s.running && s.running[r].connected
    ensures YoungAreStored(FinishStep(s, r, status, body))
    ensures StartedAfterAged(FinishStep(s, r, status, body)) && OncePerTtl(FinishStep(s, r, status, body).log)
  {
    var s', h := FinishStep(s, r, status, body), s.running[r];
    var x := Response(h.user, h.rawKey, h.fingerprint, body, s.now, false);
    if status == CREATED { OriginalKeepsOnce(s.log, x); }
    forall i | i in s'.running ensures s'.running[i].startedAt <= s'.now && AllAged(s'.log, HandlerKey(s'.running[i]), s'.running[i].startedAt) {
      assert HandlerKey(s.running[i]) != HandlerKey(h);
      if status == CREATED { ReplayKeepsAged(s.log, x, HandlerKey(s.running[i]), s.running[i].startedAt); }
    }
    forall i | 0 <= i < |s'.log| && !s'.log[i].replayed ensures Stored(s', s'.log[i]) {
      if i < |s.log| { FinishKeepsStored(s, r, status, body, s.log[i]); }
    }
  }

  /** A running handler's key has only aged 201s, so what it does to the record loses none. */
  lemma FinishKeepsStored(s: State, r: nat, status: nat, body: Body, x: Response)
    requires StartedAfterAged(s) && r in s.running && s.running[r].connected && x in s.log && !x.replayed && Stored(s, x)
    ensures Stored(FinishStep(s, r, status, body), x)
  {
    if KeyIn(x) == HandlerKey(s.running[r]) {
      assert AllAged(s.log, KeyIn(x), s.running[r].startedAt);
    }
  }

  lemma StepKeepsOnce(s: State, e: Event)
    requires OnceInv(s) && !OverOverdue(s, e)
    ensures OnceInv(Step(s, e))
  {
    StepKeepsHandlers(s, e);
    match e
    case Arrive(r, q) => if r !in s.running && Keyed(q) { ArriveKeepsOnce(s, r, q); }
    case Finish(r, status, body) => if r in s.running && s.running[r].connected { FinishKeepsOnce(s, r, status, body); }
    case Drop(r) =>
      forall i | 0 <= i < |s.log| && !s.log[i].replayed ensures Stored(Step(s, e), s.log[i]) { assert Stored(s, s.log[i]); }
    case Tick(_) =>
      forall i | 0 <= i < |s.log| && !s.log[i].replayed ensures Stored(Step(s, e), s.log[i]) { assert Stored(s, s.log[i]); }
  }

  lemma {:induction false} OnceInvAlways(s: State, es: seq<Event>)
    requires OnceInv(s) && NeverOverOverdue(s, es)
    ensures OnceInv(Exec(s, es))
    decreases |es|
  {
    if es != [] {
      StepKeepsOnce(s, es[0]);
      OnceInvAlways(Step(s, es[0]), es[1..]);
    }
  }

  /**
   * Unless a key is re-sent over an overdue handler, two operations carried out under one key are at least a TTL apart:
   * every 201 in between is a replay.
   */
  lemma CarriedOutOncePerTtl(now: nat, es: seq<Event>)
    requires NeverOverOverdue(Init(now), es)
    ensures OncePerTtl(Exec(Init(now), es).log)
  {
    OnceInvAlways(Init(now), es);
  }

  // ----- a replay is the original's body -----

  /** Same key, fingerprint and body. */
  predicate SameAs(x: Response, y: Response) {
    KeyIn(x) == KeyIn(y) && x.fingerprint == y.fingerprint && x.body == y.body
  }

  /** From j on, every 201 of j's key is a replay of j. */
  ghost predicate OnlyReplaysAfter(log: seq<Response>, j: nat) {
    j < |log| && forall m :: j < m < |log| && KeyIn(log[m]) == KeyIn(log[j]) ==> log[m].replayed && SameAs(log[m], log[j])
  }

  /** Response i replays the handler's own 201 at j, within its TTL, with nothing but replays of it in between. */
  ghost predicate Replays(log: seq<Response>, j: nat, i: nat) {
    && j < i < |log| && !log[j].replayed && SameAs(log[i], log[j])
    && log[j].at <= log[i].at < log[j].at + TTL_MS
    && OnlyReplaysAfter(log[..i + 1], j)
  }

  ghost predicate ReplaysHaveOriginals(log: seq<Response>) {
    forall i :: 0 <= i < |log| && log[i].replayed ==> exists j: nat :: Replays(log, j, i)
  }

  /** Response j made this record, and its key has had nothing but replays of it since. */
  ghost predicate Made(log: seq<Response>, j: nat, key: string, rec: Record) {
    && rec.Done? && OnlyReplaysAfter(log, j) && !log[j].replayed && KeyIn(log[j]) == key
    && log[j].fingerprint == rec.fingerprint && log[j].body == rec.body && log[j].at + TTL_MS == rec.expiresAt
  }

  ghost predicate ReplayInv(s: State) {
    && ReplaysHaveOriginals(s.log)
    && (forall i :: 0 <= i < |s.log| ==> s.log[i].at <= s.now)
    && (forall key :: key in s.store && s.store[key].Done? ==> exists j: nat :: Made(s.log, j, key, s.store[key]))
  }

  lemma AppendKeepsReplays(log: seq<Response>, x: Response)
    requires ReplaysHaveOriginals(log) && (x.replayed ==> exists j: nat :: Replays(log + [x], j, |log|))
    ensures ReplaysHaveOriginals(log + [x])
  {
    forall i | 0 <= i < |log + [x]| && (log + [x])[i].replayed ensures exists j: nat :: Replays(log + [x], j, i) {
      if i < |log| {
        var j: nat :| Replays(log, j, i);
        assert (log + [x])[..i + 1] == log[..i + 1];
        assert Replays(log + [x], j, i);
      }
    }
  }

  /** Appending a replay of it, or anything for another key, leaves what made a record as it was. */
  lemma AppendKeepsMade(log: seq<Response>, x: Response, j: nat, key: string, rec: Record)
    requires Made(log, j, key, rec) && (KeyIn(x) == key ==> x.replayed && SameAs(x, log[j]))
    ensures Made(log + [x], j, key, rec)
  {
  }

  lemma ArriveKeepsReplay(s: State, r: nat, q: Request)
    requires ReplayInv(s) && Keyed(q)
    ensures ReplayInv(ArriveStep(s, r, q))
  {
    var s', key := ArriveStep(s, r, q), QueryKey(q);
    var o := OutcomeOf(s.store, s.now, key, q.fingerprint);
    if o.Replay? {
      var x := ReplayOf(q, o.body, s.now);
      var j: nat :| Made(s.log, j, key, s.store[key]);
      AppendKeepsMade(s.log, x, j, key, s.store[key]);
      assert (s.log + [x])[..|s.log| + 1] == s.log + [x];
      assert Replays(s.log + [x], j, |s.log|);
      AppendKeepsReplays(s.log, x);
    }
    forall k | k in s'.store && s'.store[k].Done? ensures exists j: nat :: Made(s'.log, j, k, s'.store[k]) {
      var j: nat :| Made(s.log, j, k, s.store[k]);
      if o.Replay? { AppendKeepsMade(s.log, ReplayOf(q, o.body, s.now), j, k, s.store[k]); }
    }
  }

  lemma FinishKeepsReplay(s: State, r: nat, status: nat, body: Body)
    requires ReplayInv(s) && r in s.running && s.running[r].connected
    ensures ReplayInv(FinishStep(s, r, status, body))
  {
    var s', h := FinishStep(s, r, status, body), s.running[r];
    var x := Response(h.user, h.rawKey, h.fingerprint, body, s.now, false);
    if status == CREATED {
      AppendKeepsReplays(s.log, x);
      assert Made(s'.log, |s.log|, HandlerKey(h), s'.store[HandlerKey(h)]);
    }
    forall k | k in s'.store && s'.store[k].Done? ensures exists j: nat :: Made(s'.log, j, k, s'.store[k]) {
      if k != HandlerKey(h) {
        var j: nat :| Made(s.log, j, k, s.store[k]);
        if status == CREATED { AppendKeepsMade(s.log, x, j, k, s.store[k]); }
      }
    }
  }

  lemma {:induction false} ReplayInvAlways(s: State, es: seq<Event>)
    requires ReplayInv(s)
    ensures ReplayInv(Exec(s, es))
    decreases |es|
  {
    if es != [] {
      var s' := Step(s, es[0]);
      assert ReplayInv(s') by {
        match es[0]
        case Arrive(r, q) => if r !in s.running && Keyed(q) { ArriveKeepsReplay(s, r, q); }
        case Finish(r, status, body) => if r in s.running && s.running[r].connected { FinishKeepsReplay(s, r, status, body); }
        case Drop(r) =>
        case Tick(_) =>
      }
      ReplayInvAlways(s', es[1..]);
    }
  }

  /**
   * Over every run: each replayed 201 carries the fingerprint and the body of one handler's own 201 for the same key,
   * sent less than a TTL before, and the key has had no other 201 in between.
   */
  lemma EveryReplayHasItsOriginal(now: nat, es: seq<Event>)
    ensures ReplaysHaveOriginals(Exec(Init(now), es).log)
  {
    ReplayInvAlways(Init(now), es);
  }

  // ----- any other status releases the key -----

  /**
   * After anything but a 201 the key is free at once, for any body; after a 201 it is not for a whole TTL. A handler
   * whose connection was lost leaves its record as it was, to expire.
   */
  lemma OnlyFailuresReleaseTheKey(s: State, r: nat, status: nat, body: Body, fp: Fingerprint, later: nat)
    requires r in s.running && s.now <= later < s.now + TTL_MS
    ensures s.running[r].connected ==>
      OutcomeOf(Step(s, Finish(r, status, body)).store, later, HandlerKey(s.running[r]), fp) ==
        if status != CREATED then Started else if fp == s.running[r].fingerprint then Replay(body) else KeyReuse
    ensures !s.running[r].connected ==> Step(s, Finish(r, status, body)).store == s.store
  {
  }

  // ----- the composed key -----

  /** Ids of one length (uuids) never share a composed key. */
  lemma KeysNeverMix(u: string, k: string, u': string, k': string)
    requires KeyOf(u, k) == KeyOf(u', k') && |u| == |u'|
    ensures u == u' && k == k'
  {
    assert KeyOf(u, k)[..|u|] == u && KeyOf(u', k')[..|u'|] == u';
    assert KeyOf(u, k)[|u| + 1..] == k && KeyOf(u', k')[|u'| + 1..] == k';
  }

  ghost predicate CanShareAKey(u: string, u': string) {
    exists k, k' :: k != "" && k' != "" && KeyOf(u, k) == KeyOf(u', k')
  }

  /** Without that, two users can share a composed key exactly when one id is the other plus a colon and more. */
  lemma UsersCanShareAKeyExactlyWhen(u: string, u': string)
    requires u != u'
    ensures CanShareAKey(u, u') <==> u + ":" <= u' || u' + ":" <= u
  {
    if CanShareAKey(u, u') {
      var k, k' :| k != "" && k' != "" && KeyOf(u, k) == KeyOf(u', k');
      if |u| == |u'| {
        KeysNeverMix(u, k, u', k');
      } else if |u| < |u'| {
        SharedKeyIsPrefix(u, k, u', k');
      } else {
        SharedKeyIsPrefix(u', k', u, k);
      }
    }
    if u + ":" <= u' { PrefixCanShare(u, u'); }
    if u' + ":" <= u { PrefixCanShare(u', u); }
  }

  lemma SharedKeyIsPrefix(u: string, k: string, u': string, k': string)
    requires KeyOf(u, k) == KeyOf(u', k') && |u| < |u'|
    ensures u + ":" <= u'
  {
    assert KeyOf(u, k)[..|u| + 1] == u + ":";
    assert KeyOf(u', k')[..|u| + 1] == u'[..|u| + 1];
  }

  lemma PrefixCanShare(u: string, u': string)
    requires u + ":" <= u'
    ensures exists k, k' :: k != "" && k' != "" && KeyOf(u, k) == KeyOf(u', k')
    ensures exists k, k' :: k != "" && k' != "" && KeyOf(u', k) == KeyOf(u, k')
  {
    var k := u'[|u| + 1..] + ":x";
    assert KeyOf(u, k) == KeyOf(u', "x");
  }

  // ----- no user is ever sent another user's response -----

  const USER_ID_LENGTH := 36

  /** Every caller's id is a uuid. */
  predicate UuidUsers(es: seq<Event>) {
    forall i :: 0 <= i < |es| && es[i].Arrive? && es[i].q.user.Some? ==> |es[i].q.user.value| == USER_ID_LENGTH
  }

  ghost predicate KnownUsers(s: State) {
    && (forall r :: r in s.running ==> |s.running[r].user| == USER_ID_LENGTH)
    && (forall i :: 0 <= i < |s.log| ==> |s.log[i].user| == USER_ID_LENGTH)
  }

  lemma {:induction false} KnownUsersAlways(s: State, es: seq<Event>)
    requires KnownUsers(s) && UuidUsers(es)
    ensures KnownUsers(Exec(s, es))
    decreases |es|
  {
    if es != [] {
      KnownUsersAlways(Step(s, es[0]), es[1..]);
    }
  }

  /** A replay goes to the user, and for the raw key, whose handler sent the original. */
  lemma ReplaysStayWithTheirUser(now: nat, es: seq<Event>, j: nat, i: nat)
    requires UuidUsers(es) && Replays(Exec(Init(now), es).log, j, i)
    ensures Exec(Init(now), es).log[i].user == Exec(Init(now), es).log[j].user
    ensures Exec(Init(now), es).log[i].rawKey == Exec(Init(now), es).log[j].rawKey
  {
    KnownUsersAlways(Init(now), es);
    var x, y := Exec(Init(now), es).log[i], Exec(Init(now), es).log[j];
    KeysNeverMix(x.user, x.rawKey, y.user, y.rawKey);
  }

  // ----- past the TTL -----

  /** A handler that takes the whole TTL: the same request, sent again, runs beside it and both are carried out. */
  lemma SlowHandlerRunsTwice(q: Request, s: State)
    requires Keyed(q)
    requires s == Exec(Init(0), [Arrive(1, q), Tick(TTL_MS), Arrive(2, q), Finish(1, CREATED, 7), Finish(2, CREATED, 8)])
    ensures |s.log| == 2 && !s.log[0].replayed && !s.log[1].replayed && SameAs(s.log[0], s.log[1].(body := 7))
    ensures s.log[0].at == s.log[1].at && s.log[0].body != s.log[1].body
  {
    var es := [Arrive(1, q), Tick(TTL_MS), Arrive(2, q), Finish(1, CREATED, 7), Finish(2, CREATED, 8)];
    assert es[1..] == [Tick(TTL_MS), Arrive(2, q), Finish(1, CREATED, 7), Finish(2, CREATED, 8)];
    assert es[1..][1..] == [Arrive(2, q), Finish(1, CREATED, 7), Finish(2, CREATED, 8)];
    assert es[1..][1..][1..] == [Finish(1, CREATED, 7), Finish(2, CREATED, 8)];
    assert es[1..][1..][1..][1..] == [Finish(2, CREATED, 8)];
    var s1 := Step(Init(0), es[0]);
    var s2 := Step(s1, es[1]);
    var s3 := Step(s2, es[2]);
    var s4 := Step(s3, es[3]);
    var s5 := Step(s4, es[4]);
    assert Exec(s4, [es[4]]) == s5;
    assert Exec(s3, es[1..][1..][1..]) == s5;
    assert Exec(s2, es[1..][1..]) == s5;
    assert Exec(s1, es[1..]) == s5;
  }
}

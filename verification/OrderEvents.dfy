/**
 * The order event bus and its server-sent-events stream: a numbered event list, a buffer of the newest BUFFER_SIZE of
 * them, and clients that reconnect with the id of the last event they received (section 9.2, server-sent events, of
 * the WHATWG HTML Standard). One process: the numbering starts at 1 and never restarts.
 */
module OrderEvents {

  type OrderId = nat

  const BUFFER_SIZE := 1000

  datatype Status = Pending | Posted | Failed

  datatype Event = Event(id: nat, order: OrderId, status: Status)

  /** Events of one order with id > after, oldest first. */
  function Match(h: seq<Event>, order: OrderId, after: int): seq<Event> {
    if h == [] then []
    else
      var front, last := Match(h[..|h| - 1], order, after), h[|h| - 1];
      if last.order == order && last.id > after then front + [last] else front
  }

  /** Everything ever published, numbered from 1. */
  ghost predicate Numbered(h: seq<Event>) {
    forall i :: 0 <= i < |h| ==> h[i].id == i + 1
  }

  /** How many of the published events the buffer no longer holds. */
  function Evicted(n: nat): nat { if n > BUFFER_SIZE then n - BUFFER_SIZE else 0 }

  /** `OrderEventsService`: a counter and a bounded buffer; `history` is what was ever published. */
  class OrderEventsService {
    var counter: nat
    var buffer: seq<Event>
    ghost var history: seq<Event>

    ghost predicate Valid()
      reads this
    {
      && Numbered(history)
      && counter == |history|
      && buffer == history[Evicted(|history|)..]
    }

    constructor ()
      ensures Valid() && history == []
    {
      counter, buffer, history := 0, [], [];
    }

    method Publish(order: OrderId, status: Status) returns (event: Event)
      requires Valid()
      modifies this
      ensures Valid()
      ensures event == Event(|old(history)| + 1, order, status) && history == old(history) + [event]
      ensures buffer == if |history| > 1000 then history[|history| - 1000..] else history
    {
      counter := counter + 1;
      event := Event(counter, order, status);
      buffer := buffer + [event];
      if |buffer| > BUFFER_SIZE {
        buffer := buffer[1..];
      }
      history := history + [event];
    }

    /** `since`: a filter over the buffer. It has everything after the cursor unless matching events were evicted. */
    method Since(order: OrderId, lastId: int) returns (events: seq<Event>)
      requires Valid()
      ensures events == Match(buffer, order, lastId)
      ensures forall e :: e in events <==> e in buffer && e.order == order && e.id > lastId
      ensures events == Match(history, order, lastId) <==> Match(history[..Evicted(|history|)], order, lastId) == []
    {
      events := [];
      for n := 0 to |buffer|
        invariant events == Match(buffer[..n], order, lastId)
      {
        assert buffer[..n + 1][..n] == buffer[..n];
        if buffer[n].order == order && buffer[n].id > lastId {
          events := events + [buffer[n]];
        }
      }
      assert buffer[..|buffer|] == buffer;
      MatchIs(buffer, order, lastId);
      MatchSplit(history, Evicted(|history|), order, lastId);
    }
  }

  // ----- Match -----

  lemma {:induction false} MatchAppend(h: seq<Event>, g: seq<Event>, order: OrderId, after: int)
    ensures Match(h + g, order, after) == Match(h, order, after) + Match(g, order, after)
    decreases |g|
  {
    if g == [] {
      assert h + g == h;
    } else {
      var n := |g| - 1;
      assert (h + g)[..|h + g| - 1] == h + g[..n];
      MatchAppend(h, g[..n], order, after);
    }
  }

  lemma MatchSplit(h: seq<Event>, k: nat, order: OrderId, after: int)
    requires k <= |h|
    ensures Match(h, order, after) == Match(h[..k], order, after) + Match(h[k..], order, after)
  {
    assert h == h[..k] + h[k..];
    MatchAppend(h[..k], h[k..], order, after);
  }

  lemma {:induction false} MatchHas(h: seq<Event>, order: OrderId, after: int, e: Event)
    ensures e in Match(h, order, after) <==> e in h && e.order == order && e.id > after
    ensures |Match(h, order, after)| <= |h|
  {
    if h != [] {
      var front := h[..|h| - 1];
      MatchHas(front, order, after, e);
      assert h == front + [h[|h| - 1]];
    }
  }

  lemma {:induction false} MatchAscends(h: seq<Event>, order: OrderId, after: int)
    requires forall i, j :: 0 <= i < j < |h| ==> h[i].id < h[j].id
    ensures
      var m := Match(h, order, after);
      forall i, j :: 0 <= i < j < |m| ==> m[i].id < m[j].id
  {
    if h != [] {
      var front := h[..|h| - 1];
      MatchAscends(front, order, after);
      var m := Match(front, order, after);
      forall i | 0 <= i < |m| ensures m[i].id < h[|h| - 1].id {
        MatchHas(front, order, after, m[i]);
        assert m[i] in front;
      }
    }
  }

  /** What a match consists of: exactly the wanted events, in increasing order of their ids. */
  lemma MatchIs(h: seq<Event>, order: OrderId, after: int)
    requires forall i, j :: 0 <= i < j < |h| ==> h[i].id < h[j].id
    ensures
      var m := Match(h, order, after);
      && (forall e :: e in m <==> e in h && e.order == order && e.id > after)
      && (forall i, j :: 0 <= i < j < |m| ==> m[i].id < m[j].id)
      && |m| <= |h|
  {
    forall e ensures e in Match(h, order, after) <==> e in h && e.order == order && e.id > after {
      MatchHas(h, order, after, e);
    }
    MatchAscends(h, order, after);
    MatchHas(h, order, after, Event(0, order, Pending));
  }

  /** A later cursor makes no difference on events that are past it anyway. */
  lemma {:induction false} MatchSameAfter(h: seq<Event>, order: OrderId, a: int, b: int)
    requires forall i :: 0 <= i < |h| ==> (h[i].id > a <==> h[i].id > b)
    ensures Match(h, order, a) == Match(h, order, b)
  {
    if h != [] {
      MatchSameAfter(h[..|h| - 1], order, a, b);
    }
  }

  lemma {:induction false} MatchNone(h: seq<Event>, order: OrderId, after: int)
    requires forall i :: 0 <= i < |h| ==> h[i].id <= after
    ensures Match(h, order, after) == []
  {
    if h != [] {
      MatchNone(h[..|h| - 1], order, after);
    }
  }

  // ----- one client over many sessions -----

  /** `received` is the concatenation of all its sessions; the current one started at index `session`. */
  datatype Client = Client(connected: bool, received: seq<Event>, session: nat)

  datatype State = State(history: seq<Event>, client: Client)

  datatype Action =
    | Publish(order: OrderId, status: Status)
    | Connect
    | Disconnect(lost: nat)   // the last frames of the session may never have arrived

  /** The client follows one order and starts with a cursor (0 without the header). */
  datatype Config = Config(order: OrderId, cursor: nat)

  /** The id the client sends when it reconnects. */
  function LastId(c: Config, k: Client): nat {
    if k.received == [] then c.cursor else k.received[|k.received| - 1].id
  }

  function Buffer(h: seq<Event>): seq<Event> { h[Evicted(|h|)..] }

  /** How many frames are left when the last `lost` frames of the current session never arrived. */
  function Arrived(k: Client, lost: nat): (n: nat)
    ensures n <= |k.received|
  {
    if k.session + lost <= |k.received| then |k.received| - lost
    else if k.session <= |k.received| then k.session
    else |k.received|
  }

  function Step(c: Config, s: State, a: Action): State {
    var k := s.client;
    match a
    case Publish(order, status) =>
      var e := Event(|s.history| + 1, order, status);
      var s' := s.(history := s.history + [e]);
      if k.connected && order == c.order then s'.(client := k.(received := k.received + [e])) else s'
    case Connect =>
      if k.connected then s
      else s.(client := Client(true, k.received + Match(Buffer(s.history), c.order, LastId(c, k)), |k.received|))
    case Disconnect(lost) =>
      if !k.connected then s
      else
        s.(client := k.(connected := false, received := k.received[..Arrived(k, lost)]))
  }

  function Exec(c: Config, s: State, acts: seq<Action>): State
    decreases |acts|
  {
    if acts == [] then s else Exec(c, Step(c, s, acts[0]), acts[1..])
  }

  /** A client that has not connected yet, with a cursor this process has already given out. */
  ghost predicate Initial(c: Config, s: State) {
    Numbered(s.history) && s.client == Client(false, [], 0) && c.cursor <= |s.history|
  }

  // ----- nothing missed, nothing twice -----

  /** The last id of a list of received events, starting from a cursor. */
  function LastOf(after: nat, received: seq<Event>): nat {
    if received == [] then after else received[|received| - 1].id
  }

  /** Any prefix of a match is itself a match, of the history up to its own last id. */
  lemma {:induction false} MatchTruncate(h: seq<Event>, order: OrderId, after: nat, n: nat)
    requires Numbered(h) && after <= |h| && n <= |Match(h, order, after)|
    ensures
      var p := Match(h, order, after)[..n];
      var last := LastOf(after, p);
      && after <= last <= |h| && Match(h[..last], order, after) == p
      && (n == |Match(h, order, after)| ==> Match(h[last..], order, after) == [])
    decreases |h|
  {
    if after == |h| {
      MatchNone(h, order, after);
      assert h[..|h|] == h;
    } else {
      var front := h[..|h| - 1];
      var m := Match(h, order, after);
      if n <= |Match(front, order, after)| {
        MatchTruncate(front, order, after, n);
        var last := LastOf(after, m[..n]);
        assert m[..n] == Match(front, order, after)[..n];
        assert h[..last] == front[..last];
        if n == |m| {
          assert h[last..][..|h| - 1 - last] == front[last..];
        }
      } else {
        assert m[..n] == m;
        assert h[..|h|] == h && h[|h|..] == [];
      }
    }
  }

  /** What was received is exactly the order's events up to the last received id; a live client is up to date. */
  ghost predicate Seamless(c: Config, s: State) {
    var k := s.client;
    var last := LastOf(c.cursor, k.received);
    && Numbered(s.history) && c.cursor <= last <= |s.history| && k.session <= |k.received|
    && k.received == Match(s.history[..last], c.order, c.cursor)
    && (k.connected ==> Match(s.history[last..], c.order, c.cursor) == [])
  }

  lemma UpToDate(c: Config, s: State)
    requires Seamless(c, s)
    ensures s.client.received <= Match(s.history, c.order, c.cursor)
    ensures s.client.connected ==> s.client.received == Match(s.history, c.order, c.cursor)
  {
    MatchSplit(s.history, LastOf(c.cursor, s.client.received), c.order, c.cursor);
  }

  lemma MatchOne(e: Event, order: OrderId, after: int)
    ensures Match([e], order, after) == if e.order == order && e.id > after then [e] else []
  {
    assert [e][..0] == [];
  }

  lemma MatchGrows(h: seq<Event>, e: Event, order: OrderId, after: int)
    ensures Match(h + [e], order, after) == Match(h, order, after) + if e.order == order && e.id > after then [e] else []
  {
    MatchOne(e, order, after);
    MatchAppend(h, [e], order, after);
  }

  /** A published event of the order reaches a connected client. */
  lemma LiveEventKeepsSeamless(c: Config, s: State, status: Status)
    requires Seamless(c, s) && s.client.connected
    ensures Seamless(c, Step(c, s, Publish(c.order, status)))
  {
    var h := s.history;
    var e := Event(|h| + 1, c.order, status);
    UpToDate(c, s);
    MatchGrows(h, e, c.order, c.cursor);
    var h', received := h + [e], s.client.received + [e];
    assert h'[..|h'|] == h' && h'[|h'|..] == [];
    assert LastOf(c.cursor, received) == |h'|;
  }

  /** An event the client does not see (wrong order, or nobody listening) leaves it where it was. */
  lemma QuietEventKeepsSeamless(c: Config, s: State, order: OrderId, status: Status)
    requires Seamless(c, s) && !(s.client.connected && order == c.order)
    ensures Seamless(c, Step(c, s, Publish(order, status)))
  {
    var h, last := s.history, LastOf(c.cursor, s.client.received);
    var e := Event(|h| + 1, order, status);
    SlicesOfGrown(h, e, last);
    MatchGrows(h[last..], e, c.order, c.cursor);
  }

  lemma SlicesOfGrown(h: seq<Event>, e: Event, last: nat)
    requires last <= |h|
    ensures (h + [e])[..last] == h[..last] && (h + [e])[last..] == h[last..] + [e]
  {
  }

  lemma RestAfter(h: seq<Event>, order: OrderId, after: nat, last: nat)
    requires Numbered(h) && after <= last <= |h|
    ensures Match(h, order, after) == Match(h[..last], order, after) + Match(h, order, last)
  {
    MatchSplit(h, last, order, after);
    MatchSameAfter(h[last..], order, after, last);
    OnlyTheRest(h, order, last);
  }

  /** Nothing up to `last` is after it. */
  lemma OnlyTheRest(h: seq<Event>, order: OrderId, last: nat)
    requires Numbered(h) && last <= |h|
    ensures Match(h, order, last) == Match(h[last..], order, last)
  {
    MatchSplit(h, last, order, last);
    MatchNone(h[..last], order, last);
    assert [] + Match(h[last..], order, last) == Match(h[last..], order, last);
  }

  /** The replay plus what the client has is the order's whole list, less what was evicted in the gap. */
  lemma ReplayIs(c: Config, s: State)
    requires Seamless(c, s) && !s.client.connected
    ensures
      var h, last := s.history, LastId(c, s.client);
      && Match(h, c.order, c.cursor) ==
           s.client.received + Match(h[..Evicted(|h|)], c.order, last) + Match(Buffer(h), c.order, last)
  {
    var h, last := s.history, LastId(c, s.client);
    RestAfter(h, c.order, c.cursor, last);
    MatchSplit(h, Evicted(|h|), c.order, last);
  }

  /** A reconnect misses nothing if and only if no event of the order was evicted since the last received one. */
  lemma ReconnectIsCompleteIff(c: Config, s: State)
    requires Seamless(c, s) && !s.client.connected
    ensures
      Step(c, s, Connect).client.received == Match(s.history, c.order, c.cursor) <==>
        (forall e :: e in s.history && e.order == c.order && LastId(c, s.client) < e.id ==> e.id > Evicted(|s.history|))
  {
    var h, last, n := s.history, LastId(c, s.client), Evicted(|s.history|);
    ReplayIs(c, s);
    MiddleIsEmptyIff(s.client.received, Match(h[..n], c.order, last), Match(Buffer(h), c.order, last));
    NothingEvictedIff(h, n, c.order, last);
  }

  lemma MiddleIsEmptyIff(a: seq<Event>, b: seq<Event>, c: seq<Event>)
    ensures a + c == a + b + c <==> b == []
  {
    assert a + c == a + b + c ==> |b| == 0;
    assert b == [] ==> a + b == a;
  }

  lemma NothingEvictedIff(h: seq<Event>, n: nat, order: OrderId, after: int)
    requires Numbered(h) && n <= |h|
    ensures Match(h[..n], order, after) == [] <==>
      forall e :: e in h && e.order == order && after < e.id ==> e.id > n
  {
    var gap := Match(h[..n], order, after);
    MatchIs(h[..n], order, after);
    forall e ensures e in h && e.id <= n <==> e in h[..n] { AmongTheFirst(h, n, e); }
    if gap != [] {
      assert gap[0] in gap;
    }
  }

  lemma AmongTheFirst(h: seq<Event>, n: nat, e: Event)
    requires Numbered(h) && n <= |h|
    ensures e in h && e.id <= n <==> e in h[..n]
  {
    if e in h && e.id <= n {
      FoundByItsId(h, e);
      assert h[..n][e.id - 1] == e;
    }
  }

  lemma ConnectKeepsSeamless(c: Config, s: State)
    requires Seamless(c, s) && (!s.client.connected ==> |s.history| - LastId(c, s.client) <= BUFFER_SIZE)
    ensures Seamless(c, Step(c, s, Connect))
  {
    if !s.client.connected {
      var h := s.history;
      ReplayIs(c, s);
      MatchNone(h[..Evicted(|h|)], c.order, LastId(c, s.client));
      var m := Match(h, c.order, c.cursor);
      assert Step(c, s, Connect).client.received == m;
      assert m[..|m|] == m;
      MatchTruncate(h, c.order, c.cursor, |m|);
    }
  }

  lemma DisconnectKeepsSeamless(c: Config, s: State, lost: nat)
    requires Seamless(c, s)
    ensures Seamless(c, Step(c, s, Disconnect(lost)))
  {
    if s.client.connected {
      UpToDate(c, s);
      MatchTruncate(s.history, c.order, c.cursor, Arrived(s.client, lost));
    }
  }

  /** Whenever the client reconnects, at most BUFFER_SIZE events were published since the last one it received. */
  ghost predicate GapsFit(c: Config, s: State, acts: seq<Action>)
    decreases |acts|
  {
    acts != [] ==>
      && (acts[0].Connect? && !s.client.connected ==> |s.history| - LastId(c, s.client) <= BUFFER_SIZE)
      && GapsFit(c, Step(c, s, acts[0]), acts[1..])
  }

  lemma {:induction false} SeamlessAlways(c: Config, s: State, acts: seq<Action>)
    requires Seamless(c, s) && GapsFit(c, s, acts)
    ensures Seamless(c, Exec(c, s, acts))
    decreases |acts|
  {
    if acts != [] {
      match acts[0] {
        case Publish(order, status) =>
          if s.client.connected && order == c.order {
            LiveEventKeepsSeamless(c, s, status);
          } else {
            QuietEventKeepsSeamless(c, s, order, status);
          }
        case Connect => ConnectKeepsSeamless(c, s);
        case Disconnect(lost) => DisconnectKeepsSeamless(c, s, lost);
      }
      SeamlessAlways(c, Step(c, s, acts[0]), acts[1..]);
    }
  }

  /**
   * For any interleaving of publishes, broken connections (with frames lost on the way) and reconnects, if no gap
   * outgrows the buffer: the concatenated sessions are a prefix of the order's full event list after the first
   * cursor, and the whole list while the client is connected.
   */
  lemma StreamsAreSeamless(c: Config, s: State, acts: seq<Action>)
    requires Initial(c, s) && GapsFit(c, s, acts)
    ensures
      var f := Exec(c, s, acts);
      && f.client.received <= Match(f.history, c.order, c.cursor)
      && (f.client.connected ==> f.client.received == Match(f.history, c.order, c.cursor))
  {
    MatchNone(s.history[..c.cursor], c.order, c.cursor);
    SeamlessAlways(c, s, acts);
    UpToDate(c, Exec(c, s, acts));
  }

  // ----- when gaps do outgrow the buffer -----

  ghost predicate Increasing(es: seq<Event>) {
    forall i, j :: 0 <= i < j < |es| ==> es[i].id < es[j].id
  }

  /** Strictly increasing ids, only events of the order after the cursor. */
  ghost predicate Orderly(c: Config, s: State) {
    && Numbered(s.history) && c.cursor <= |s.history|
    && s.client.session <= |s.client.received| && Increasing(s.client.received)
    && forall e :: e in s.client.received ==> e in s.history && e.order == c.order && e.id > c.cursor
  }

  /** Every event of the order is received, still to come, or was evicted before a reconnect (id <= horizon). */
  ghost predicate Accounted(c: Config, s: State, horizon: nat, e: Event) {
    e in s.client.received || e.id <= horizon || (!s.client.connected && e.id > LastId(c, s.client))
  }

  ghost predicate AllAccounted(c: Config, s: State, horizon: nat) {
    forall e :: e in s.history && e.order == c.order && e.id > c.cursor ==> Accounted(c, s, horizon, e)
  }

  /** Frames lost with a connection are sent again at the next one, unless they have left the buffer by then. */
  lemma LostFramesComeAgain(c: Config, s: State, lost: nat, e: Event)
    requires Orderly(c, s) && s.client.connected && lost <= |s.client.received| - s.client.session
    ensures
      var kept := |s.client.received| - lost;
      var s' := Step(c, s, Disconnect(lost));
      && s'.history == s.history && !s'.client.connected && s'.client.received == s.client.received[..kept]
      && (e in s.client.received[kept..] && |s.history| - e.id < 1000 ==> e in Step(c, s', Connect).client.received)
  {
    var kept := |s.client.received| - lost;
    var s' := Step(c, s, Disconnect(lost));
    if e in s.client.received[kept..] && |s.history| - e.id < 1000 {
      var i :| kept <= i < |s.client.received| && s.client.received[i] == e;
      assert e in s.client.received;
      FoundByItsId(s.history, e);
      assert Buffer(s.history)[e.id - 1 - Evicted(|s.history|)] == e;
      MatchIs(Buffer(s.history), c.order, LastId(c, s'.client));
    }
  }

  /** The newest event already evicted at any of the reconnects of the run. */
  function Horizon(c: Config, s: State, acts: seq<Action>, soFar: nat): nat
    decreases |acts|
  {
    if acts == [] then soFar
    else Horizon(c, Step(c, s, acts[0]), acts[1..], NextHorizon(s, acts[0], soFar))
  }

  function NextHorizon(s: State, a: Action, soFar: nat): nat {
    if a.Connect? && !s.client.connected && Evicted(|s.history|) > soFar then Evicted(|s.history|) else soFar
  }

  lemma FoundByItsId(h: seq<Event>, e: Event)
    requires Numbered(h) && e in h
    ensures 1 <= e.id <= |h| && h[e.id - 1] == e
  {
  }

  lemma LastIdIsOld(c: Config, s: State)
    requires Orderly(c, s)
    ensures c.cursor <= LastId(c, s.client) <= |s.history|
  {
    if s.client.received != [] {
      FoundByItsId(s.history, s.client.received[|s.client.received| - 1]);
    }
  }

  lemma ConnectKeepsOrderly(c: Config, s: State)
    requires Orderly(c, s) && !s.client.connected
    ensures Orderly(c, Step(c, s, Connect))
  {
    var h, last := s.history, LastId(c, s.client);
    var received, replay := s.client.received, Match(Buffer(h), c.order, last);
    MatchIs(Buffer(h), c.order, last);
    LastIdIsOld(c, s);
    forall e | e in replay ensures e in h && e.order == c.order && e.id > c.cursor { assert e in Buffer(h); }
    IncreasingJoins(received, replay, last);
  }

  lemma IncreasingJoins(front: seq<Event>, back: seq<Event>, last: nat)
    requires Increasing(front) && Increasing(back) && (front != [] ==> front[|front| - 1].id == last)
    requires forall e :: e in back ==> e.id > last
    ensures Increasing(front + back)
  {
    forall j | 0 <= j < |back| ensures back[j].id > last { assert back[j] in back; }
  }

  lemma ConnectAccountsFor(c: Config, s: State, horizon: nat, e: Event)
    requires Orderly(c, s) && !s.client.connected && Accounted(c, s, horizon, e)
    requires e in s.history && e.order == c.order
    ensures Accounted(c, Step(c, s, Connect), NextHorizon(s, Connect, horizon), e)
  {
    var h, last := s.history, LastId(c, s.client);
    FoundByItsId(h, e);
    if e.id > last && e.id > Evicted(|h|) {
      assert Buffer(h)[e.id - 1 - Evicted(|h|)] == e;
      MatchIs(Buffer(h), c.order, last);
    }
  }

  lemma ConnectAccounts(c: Config, s: State, horizon: nat)
    requires Orderly(c, s) && !s.client.connected && AllAccounted(c, s, horizon)
    ensures AllAccounted(c, Step(c, s, Connect), NextHorizon(s, Connect, horizon))
  {
    forall e | e in s.history && e.order == c.order && e.id > c.cursor
      ensures Accounted(c, Step(c, s, Connect), NextHorizon(s, Connect, horizon), e)
    {
      ConnectAccountsFor(c, s, horizon, e);
    }
  }

  lemma PublishKeepsOrderly(c: Config, s: State, order: OrderId, status: Status)
    requires Orderly(c, s)
    ensures Orderly(c, Step(c, s, Publish(order, status)))
  {
    LastIdIsOld(c, s);
    forall e | e in s.client.received ensures e.id <= |s.history| { FoundByItsId(s.history, e); }
  }

  lemma PublishKeepsAccounts(c: Config, s: State, order: OrderId, status: Status, horizon: nat)
    requires Orderly(c, s) && AllAccounted(c, s, horizon)
    ensures AllAccounted(c, Step(c, s, Publish(order, status)), horizon)
  {
    var s' := Step(c, s, Publish(order, status));
    LastIdIsOld(c, s);
    forall e | e in s'.history && e.order == c.order && e.id > c.cursor
      ensures Accounted(c, s', horizon, e)
    {
      if e in s.history {
        assert Accounted(c, s, horizon, e);
      } else {
        assert e == Event(|s.history| + 1, order, status);
        assert s.client.connected ==> s'.client.received[|s.client.received|] == e;
      }
    }
  }

  lemma DisconnectKeepsAccounts(c: Config, s: State, lost: nat, horizon: nat)
    requires Orderly(c, s) && AllAccounted(c, s, horizon)
    ensures Orderly(c, Step(c, s, Disconnect(lost))) && AllAccounted(c, Step(c, s, Disconnect(lost)), horizon)
  {
    if s.client.connected {
      var s' := Step(c, s, Disconnect(lost));
      var all, kept := s.client.received, s'.client.received;
      forall e | e in s'.history && e.order == c.order && e.id > c.cursor
        ensures Accounted(c, s', horizon, e)
      {
        assert Accounted(c, s, horizon, e);
        if e in all {
          var i :| 0 <= i < |all| && all[i] == e;
          if i < |kept| {
            assert kept[i] == e;
          } else {
            assert kept != [] ==> all[|kept| - 1].id < all[i].id;
          }
        }
      }
    }
  }

  lemma {:induction false} AccountsAlways(c: Config, s: State, acts: seq<Action>, horizon: nat)
    requires Orderly(c, s) && AllAccounted(c, s, horizon)
    ensures Orderly(c, Exec(c, s, acts)) && AllAccounted(c, Exec(c, s, acts), Horizon(c, s, acts, horizon))
    decreases |acts|
  {
    if acts != [] {
      match acts[0] {
        case Publish(order, status) =>
          PublishKeepsOrderly(c, s, order, status);
          PublishKeepsAccounts(c, s, order, status, horizon);
        case Connect =>
          if !s.client.connected {
            ConnectKeepsOrderly(c, s);
            ConnectAccounts(c, s, horizon);
          }
        case Disconnect(lost) => DisconnectKeepsAccounts(c, s, lost, horizon);
      }
      AccountsAlways(c, Step(c, s, acts[0]), acts[1..], NextHorizon(s, acts[0], horizon));
    }
  }

  /**
   * For any interleaving at all: the concatenated sessions have strictly increasing ids (so no duplicate), hold only
   * events of the order after the cursor, and a connected client misses only events already evicted at a reconnect.
   */
  lemma OnlyEvictedEventsAreMissed(c: Config, s: State, acts: seq<Action>)
    requires Initial(c, s)
    ensures
      var f := Exec(c, s, acts);
      && Increasing(f.client.received)
      && (forall e :: e in f.client.received ==> e in f.history && e.order == c.order && e.id > c.cursor)
      && (f.client.connected ==> forall e :: e in f.history && e.order == c.order && e.id > c.cursor ==>
            e in f.client.received || e.id <= Horizon(c, s, acts, 0))
  {
    AccountsAlways(c, s, acts, 0);
    var f := Exec(c, s, acts);
    if f.client.connected {
      forall e | e in f.history && e.order == c.order && e.id > c.cursor
        ensures e in f.client.received || e.id <= Horizon(c, s, acts, 0)
      {
        assert Accounted(c, f, Horizon(c, s, acts, 0), e);
      }
    }
  }

  // ----- any cursor, also one of another process -----

  /** At a connect the history holds no event of the order that the initial cursor already counts as received. */
  ghost predicate NothingBelowCursor(c: Config, h: seq<Event>) {
    forall e :: e in h && e.order == c.order ==> e.id > c.cursor
  }

  /** Whenever the client connects without having received anything yet, nothing of the order is below its cursor. */
  ghost predicate CleanStarts(c: Config, s: State, acts: seq<Action>)
    decreases |acts|
  {
    acts != [] ==>
      && (acts[0].Connect? && !s.client.connected && s.client.received == [] ==> NothingBelowCursor(c, s.history))
      && CleanStarts(c, Step(c, s, acts[0]), acts[1..])
  }

  /** The same client, had it asked for everything. */
  function FromStart(c: Config): Config { Config(c.order, 0) }

  lemma {:induction false} MatchSameFor(h: seq<Event>, order: OrderId, a: int, b: int)
    requires forall i :: 0 <= i < |h| && h[i].order == order ==> (h[i].id > a <==> h[i].id > b)
    ensures Match(h, order, a) == Match(h, order, b)
  {
    if h != [] {
      MatchSameFor(h[..|h| - 1], order, a, b);
    }
  }

  /** A clean start replays the order's whole list. */
  lemma CleanStartIsWhole(c: Config, h: seq<Event>)
    requires Numbered(h) && NothingBelowCursor(c, h) && |h| - c.cursor <= BUFFER_SIZE
    ensures Match(Buffer(h), c.order, c.cursor) == Match(h, c.order, 0)
  {
    forall i | 0 <= i < |h| && h[i].order == c.order ensures h[i].id > c.cursor { assert h[i] in h; }
    MatchSameFor(h, c.order, c.cursor, 0);
    MatchSplit(h, Evicted(|h|), c.order, c.cursor);
    MatchNone(h[..Evicted(|h|)], c.order, c.cursor);
  }

  lemma ConnectKeepsWhole(c: Config, s: State)
    requires Seamless(FromStart(c), s) && !s.client.connected && |s.history| - LastId(c, s.client) <= BUFFER_SIZE
    requires s.client.received == [] ==> NothingBelowCursor(c, s.history)
    ensures Seamless(FromStart(c), Step(c, s, Connect))
  {
    if s.client.received != [] {
      assert Step(c, s, Connect) == Step(FromStart(c), s, Connect);
      ConnectKeepsSeamless(FromStart(c), s);
    } else {
      var h := s.history;
      CleanStartIsWhole(c, h);
      var m := Match(h, c.order, 0);
      assert m[..|m|] == m && Step(c, s, Connect).client.received == m;
      MatchTruncate(h, c.order, 0, |m|);
    }
  }

  lemma {:induction false} CleanStartsMissNothing(c: Config, s: State, acts: seq<Action>)
    requires Seamless(FromStart(c), s) && GapsFit(c, s, acts) && CleanStarts(c, s, acts)
    ensures Seamless(FromStart(c), Exec(c, s, acts))
    decreases |acts|
  {
    if acts != [] {
      var a := acts[0];
      match a {
        case Publish(order, status) =>
          assert Step(c, s, a) == Step(FromStart(c), s, a);
          if s.client.connected && order == c.order {
            LiveEventKeepsSeamless(FromStart(c), s, status);
          } else {
            QuietEventKeepsSeamless(FromStart(c), s, order, status);
          }
        case Connect => if !s.client.connected { ConnectKeepsWhole(c, s); }
        case Disconnect(lost) =>
          assert Step(c, s, a) == Step(FromStart(c), s, a);
          DisconnectKeepsSeamless(FromStart(c), s, lost);
      }
      CleanStartsMissNothing(c, Step(c, s, a), acts[1..]);
    }
  }

  /** An event of the order that the cursor passes over and that comes before everything received. */
  ghost predicate PassedOver(c: Config, s: State, e: Event) {
    && e in s.history && e.order == c.order && e.id <= c.cursor && e.id <= |s.history|
    && forall i :: 0 <= i < |s.client.received| ==> s.client.received[i].id > e.id
  }

  lemma StepKeepsPassedOver(c: Config, s: State, a: Action, e: Event)
    requires Numbered(s.history) && PassedOver(c, s, e)
    ensures Numbered(Step(c, s, a).history) && PassedOver(c, Step(c, s, a), e)
  {
    if a.Connect? && !s.client.connected {
      var last := LastId(c, s.client);
      var replay := Match(Buffer(s.history), c.order, last);
      MatchIs(Buffer(s.history), c.order, last);
      forall i | 0 <= i < |replay| ensures replay[i].id > e.id { assert replay[i] in replay; }
    }
  }

  lemma {:induction false} PassedOverForever(c: Config, s: State, acts: seq<Action>, e: Event)
    requires Numbered(s.history) && PassedOver(c, s, e)
    ensures PassedOver(c, Exec(c, s, acts), e)
    decreases |acts|
  {
    if acts != [] {
      StepKeepsPassedOver(c, s, acts[0], e);
      PassedOverForever(c, Step(c, s, acts[0]), acts[1..], e);
    }
  }

  /** A start that is not clean passes over an event for good. */
  lemma {:induction false} UncleanStartPassesOver(c: Config, s: State, acts: seq<Action>) returns (e: Event)
    requires Numbered(s.history) && !CleanStarts(c, s, acts)
    ensures PassedOver(c, Exec(c, s, acts), e)
    decreases |acts|
  {
    var a := acts[0];
    if a.Connect? && !s.client.connected && s.client.received == [] && !NothingBelowCursor(c, s.history) {
      e :| e in s.history && e.order == c.order && e.id <= c.cursor;
      PassedOverForever(c, s, acts, e);
    } else {
      assert Numbered(Step(c, s, a).history);
      e := UncleanStartPassesOver(c, Step(c, s, a), acts[1..]);
    }
  }

  /**
   * For any cursor, also one that another process gave out and that is ahead of this one's counter, and for any run of
   * publishes, broken connections and reconnects whose gaps fit: a connected client's joined sessions are the order's
   * whole list of this process if and only if, whenever the client connected without having received anything yet, no
   * event of the order had an id up to its cursor. (Live events are not compared with the cursor, so later ones arrive.)
   */
  lemma AnyCursorIsSeamlessExactlyWhen(c: Config, s: State, acts: seq<Action>)
    requires Numbered(s.history) && s.client == Client(false, [], 0) && GapsFit(c, s, acts)
    requires Exec(c, s, acts).client.connected
    ensures
      var f := Exec(c, s, acts);
      f.client.received == Match(f.history, c.order, 0) <==> CleanStarts(c, s, acts)
  {
    var f := Exec(c, s, acts);
    if CleanStarts(c, s, acts) {
      assert Match(s.history[..0], c.order, 0) == [];
      CleanStartsMissNothing(c, s, acts);
      UpToDate(FromStart(c), f);
    } else {
      var e := UncleanStartPassesOver(c, s, acts);
      NumberedAlways(c, s, acts);
      MatchIs(f.history, c.order, 0);
      assert e in Match(f.history, c.order, 0);
      assert e !in f.client.received;
    }
  }

  lemma {:induction false} NumberedAlways(c: Config, s: State, acts: seq<Action>)
    requires Numbered(s.history)
    ensures Numbered(Exec(c, s, acts).history)
    decreases |acts|
  {
    if acts != [] {
      NumberedAlways(c, Step(c, s, acts[0]), acts[1..]);
    }
  }

  /**
   * The shortest run that fails it: with a cursor kept over a restart, the first event of the new process, published
   * while the client was away, is neither replayed nor evicted, just skipped.
   */
  lemma StaleCursorSkips(c: Config, status: Status)
    requires c.cursor >= 1
    ensures
      var s := State([], Client(false, [], 0));
      var f := Step(c, Step(c, s, Publish(c.order, status)), Connect);
      && Event(1, c.order, status) in Buffer(f.history)
      && f.client.connected && f.client.received == []
  {
    var e := Event(1, c.order, status);
    var s1 := Step(c, State([], Client(false, [], 0)), Publish(c.order, status));
    assert s1 == State([e], Client(false, [], 0));
    assert Buffer([e]) == [e];
    MatchOne(e, c.order, c.cursor);
  }
}

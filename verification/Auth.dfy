/**
 * Refresh-token families with rotation and reuse detection (section 4.14.2 of RFC 9700) and the access-token
 * denylist. Each committed database transaction is one atomic step; time is in milliseconds and never goes back.
 * Tokens, families and token ids are fresh when they are issued, and a token is identified by its hash.
 */
module Auth {

  type Token = nat
  type Family = nat
  type Jti = nat

  const ACCESS_TTL_SECONDS := 600
  const REFRESH_TTL_SECONDS := 2_592_000

  /** A row of `refresh_tokens`. */
  datatype Row = Row(family: Family, used: bool, revoked: bool, expiresAt: int)

  /** The claims of a signed access token that matter here: its family and its expiry in epoch seconds. */
  datatype Access = Access(sid: Family, exp: int)

  /** `denylist` maps a token id to `expires_at`; `issued` is every access token ever signed. */
  datatype State = State(now: nat, rows: map<Token, Row>, denylist: map<Jti, int>, issued: map<Jti, Access>)

  datatype Event =
    | Login(family: Family, token: Token, jti: Jti)
    | Refresh(token: Token, successor: Token, jti: Jti)
    | Logout(jti: Jti)
    | Tick(ms: nat)

  datatype Outcome = Issued | Invalid | Reuse

  predicate Dead(s: State, row: Row) { row.revoked || row.expiresAt <= s.now }

  predicate FamilyUnused(s: State, f: Family) {
    && (forall t :: t in s.rows ==> s.rows[t].family != f)
    && (forall j :: j in s.issued ==> s.issued[j].sid != f)
  }

  /** `issue`: a new refresh row and a new access token for the family. */
  function Issue(s: State, f: Family, token: Token, jti: Jti): State {
    s.(rows := s.rows[token := Row(f, false, false, s.now + REFRESH_TTL_SECONDS * 1000)],
       issued := s.issued[jti := Access(f, s.now / 1000 + ACCESS_TTL_SECONDS)])
  }

  /** `revokeFamily`: rows already revoked keep their mark. */
  function RevokeFamily(rows: map<Token, Row>, f: Family): map<Token, Row> {
    map t | t in rows :: if rows[t].family == f then rows[t].(revoked := true) else rows[t]
  }

  /** Past its token's expiry an entry guards nothing. */
  function DropExpired(denylist: map<Jti, int>, now: int): map<Jti, int> {
    map j | j in denylist && denylist[j] > now :: denylist[j]
  }

  function RefreshOutcome(s: State, token: Token): Outcome {
    if token !in s.rows || Dead(s, s.rows[token]) then Invalid
    else if s.rows[token].used then Reuse
    else Issued
  }

  predicate Fresh(s: State, token: Token, jti: Jti) { token !in s.rows && jti !in s.issued }

  function Step(s: State, e: Event): State {
    match e
    case Login(f, token, jti) =>
      if Fresh(s, token, jti) && FamilyUnused(s, f) then Issue(s, f, token, jti) else s
    case Refresh(token, successor, jti) =>
      if !Fresh(s, successor, jti) then s
      else
        (match RefreshOutcome(s, token)
         case Reuse => s.(rows := RevokeFamily(s.rows, s.rows[token].family))
         case Issued =>
           var row := s.rows[token];
           Issue(s.(rows := s.rows[token := row.(used := true)]), row.family, successor, jti)
         case _ => s)
    case Logout(jti) =>
      if jti !in s.issued then s
      else
        var expiresAt := s.issued[jti].exp * 1000;
        var entries := if jti in s.denylist then s.denylist else s.denylist[jti := expiresAt];
        s.(rows := RevokeFamily(s.rows, s.issued[jti].sid), denylist := DropExpired(entries, s.now))
    case Tick(ms) => s.(now := s.now + ms)
  }

  function Exec(s: State, es: seq<Event>): State
    decreases |es|
  {
    if es == [] then s else Exec(Step(s, es[0]), es[1..])
  }

  const EMPTY := State(0, map[], map[], map[])

  // ----- families -----

  function Members(s: State, f: Family): set<Token> {
    set t | t in s.rows && s.rows[t].family == f
  }

  /** All of the family's rows are revoked. */
  ghost predicate Killed(s: State, f: Family) {
    forall t :: t in s.rows && s.rows[t].family == f ==> s.rows[t].revoked
  }

  /** None of its rows is revoked, and exactly one of them, `last`, has not been used. */
  ghost predicate Rotating(s: State, f: Family, last: Token) {
    && last in s.rows && s.rows[last].family == f && !s.rows[last].used
    && forall t :: t in s.rows && s.rows[t].family == f ==> !s.rows[t].revoked && (t != last ==> s.rows[t].used)
  }

  ghost predicate Sane(s: State, f: Family) { Killed(s, f) || exists last :: Rotating(s, f, last) }

  ghost predicate FamilyInv(s: State) { forall f: Family :: Sane(s, f) }

  lemma IssueKeepsOthers(s: State, s': State, f: Family)
    requires Sane(s, f)
    requires forall t :: t in s'.rows && s'.rows[t].family == f ==> t in s.rows && s'.rows[t] == s.rows[t]
    requires forall t :: t in s.rows && s.rows[t].family == f ==> t in s'.rows && s'.rows[t] == s.rows[t]
    ensures Sane(s', f)
  {
    if !Killed(s, f) {
      var last :| Rotating(s, f, last);
      assert Rotating(s', f, last);
    }
  }

  lemma LoginKeepsFamily(s: State, g: Family, token: Token, jti: Jti, f: Family)
    requires Sane(s, f)
    ensures Sane(Step(s, Login(g, token, jti)), f)
  {
    var s' := Step(s, Login(g, token, jti));
    if f == g && s' != s { assert Rotating(s', f, token); } else { IssueKeepsOthers(s, s', f); }
  }

  /** Only the family's one unused row is ever rotated, and its successor takes its place. */
  lemma RefreshKeepsFamily(s: State, token: Token, successor: Token, jti: Jti, f: Family)
    requires Sane(s, f)
    ensures Sane(Step(s, Refresh(token, successor, jti)), f)
  {
    var s' := Step(s, Refresh(token, successor, jti));
    if s' != s && s.rows[token].family == f {
      if RefreshOutcome(s, token) == Issued {
        var last :| Rotating(s, f, last);
        assert last == token;
        assert Rotating(s', f, successor);
      }
    } else {
      IssueKeepsOthers(s, s', f);
    }
  }

  lemma LogoutKeepsFamily(s: State, jti: Jti, f: Family)
    requires Sane(s, f)
    ensures Sane(Step(s, Logout(jti)), f)
  {
    var s' := Step(s, Logout(jti));
    if jti in s.issued && s.issued[jti].sid == f {
      assert Killed(s', f);
    } else {
      IssueKeepsOthers(s, s', f);
    }
  }

  lemma StepKeepsFamilies(s: State, e: Event)
    requires FamilyInv(s)
    ensures FamilyInv(Step(s, e))
  {
    forall f: Family ensures Sane(Step(s, e), f) {
      assert Sane(s, f);
      match e
      case Login(g, token, jti) => LoginKeepsFamily(s, g, token, jti, f);
      case Refresh(token, successor, jti) => RefreshKeepsFamily(s, token, successor, jti, f);
      case Logout(jti) => LogoutKeepsFamily(s, jti, f);
      case Tick(_) => IssueKeepsOthers(s, Step(s, e), f);
    }
  }

  lemma {:induction false} FamiliesAlways(s: State, es: seq<Event>)
    requires FamilyInv(s)
    ensures FamilyInv(Exec(s, es))
    decreases |es|
  {
    if es != [] {
      StepKeepsFamilies(s, es[0]);
      FamiliesAlways(Step(s, es[0]), es[1..]);
    }
  }

  predicate LiveIn(s: State, t: Token, f: Family) {
    t in s.rows && s.rows[t].family == f && !s.rows[t].used && !s.rows[t].revoked
  }

  /**
   * After any sequence of logins, refreshes and logouts a family is either revoked as a whole or still rotating with
   * exactly one unused row; so never two rows of it are neither used nor revoked.
   */
  lemma AtMostOneLiveToken(es: seq<Event>, f: Family)
    ensures
      var s := Exec(EMPTY, es);
      && (Killed(s, f) || exists last :: Rotating(s, f, last))
      && forall t, u :: LiveIn(s, t, f) && LiveIn(s, u, f) ==> t == u
  {
    forall g: Family ensures Killed(EMPTY, g) {}
    FamiliesAlways(EMPTY, es);
    var s := Exec(EMPTY, es);
    assert Sane(s, f);
  }

  /** Whether this event is a refresh that succeeds in family f. */
  predicate Succeeds(s: State, e: Event, f: Family) {
    e.Refresh? && Fresh(s, e.successor, e.jti) && RefreshOutcome(s, e.token) == Issued && s.rows[e.token].family == f
  }

  function Successes(s: State, es: seq<Event>, f: Family): nat
    decreases |es|
  {
    if es == [] then 0 else (if Succeeds(s, es[0], f) then 1 else 0) + Successes(Step(s, es[0]), es[1..], f)
  }

  lemma StepMembers(s: State, e: Event, f: Family)
    requires Members(s, f) != {}
    ensures Members(Step(s, e), f) == Members(s, f) + if Succeeds(s, e, f) then {e.successor} else {}
    ensures |Members(Step(s, e), f)| == |Members(s, f)| + if Succeeds(s, e, f) then 1 else 0
  {
    assert Members(Step(s, e), f) == Members(s, f) + if Succeeds(s, e, f) then {e.successor} else {};
  }

  /** A family has one row per login and one more per successful refresh. */
  lemma {:induction false} FamilySize(s: State, es: seq<Event>, f: Family)
    requires Members(s, f) != {}
    ensures |Members(Exec(s, es), f)| == |Members(s, f)| + Successes(s, es, f)
    decreases |es|
  {
    if es != [] {
      StepMembers(s, es[0], f);
      FamilySize(Step(s, es[0]), es[1..], f);
    }
  }

  /** From the login on: row count = 1 + successful refreshes. */
  lemma RowsCountRefreshes(s: State, f: Family, token: Token, jti: Jti, es: seq<Event>)
    requires Fresh(s, token, jti) && FamilyUnused(s, f)
    ensures |Members(Exec(Step(s, Login(f, token, jti)), es), f)| == 1 + Successes(Step(s, Login(f, token, jti)), es, f)
  {
    var s' := Step(s, Login(f, token, jti));
    assert Members(s', f) == {token};
    FamilySize(s', es, f);
  }

  // ----- a killed family stays killed -----

  /** A replay of a used token that is not dead revokes the whole family and issues nothing. */
  lemma ReplayKills(s: State, token: Token, successor: Token, jti: Jti)
    requires token in s.rows && s.rows[token].used && !Dead(s, s.rows[token]) && Fresh(s, successor, jti)
    ensures
      var s' := Step(s, Refresh(token, successor, jti));
      && RefreshOutcome(s, token) == Reuse
      && Killed(s', s.rows[token].family) && Members(s', s.rows[token].family) == Members(s, s.rows[token].family)
      && s'.issued == s.issued
  {
    var f := s.rows[token].family;
    var s' := Step(s, Refresh(token, successor, jti));
    assert forall t :: t in s'.rows <==> t in s.rows;
    assert Members(s', f) == Members(s, f);
  }

  lemma LogoutKills(s: State, jti: Jti)
    requires jti in s.issued
    ensures Killed(Step(s, Logout(jti)), s.issued[jti].sid)
  {
  }

  lemma StepKeepsKilled(s: State, e: Event, f: Family)
    requires Killed(s, f) && Members(s, f) != {}
    ensures Killed(Step(s, e), f) && Members(Step(s, e), f) == Members(s, f) && !Succeeds(s, e, f)
  {
    StepMembers(s, e, f);
    if e.Login? {
      var t :| t in Members(s, f);
      assert s.rows[t].family == f;
    }
  }

  /** Once killed, a family never refreshes again and never grows, whatever is presented later. */
  lemma {:induction false} KilledForever(s: State, es: seq<Event>, f: Family)
    requires Killed(s, f) && Members(s, f) != {}
    ensures Killed(Exec(s, es), f) && Members(Exec(s, es), f) == Members(s, f) && Successes(s, es, f) == 0
    decreases |es|
  {
    if es != [] {
      StepKeepsKilled(s, es[0], f);
      KilledForever(Step(s, es[0]), es[1..], f);
    }
  }

  /**
   * Reuse detection end to end: after any history, replaying a used token that is not dead revokes all rows of its
   * family, and after any continuation they are all still revoked, none was added and no refresh of it succeeded.
   */
  lemma ReplayEndsTheFamily(past: seq<Event>, token: Token, successor: Token, jti: Jti, future: seq<Event>)
    requires
      var s := Exec(EMPTY, past);
      && token in s.rows && s.rows[token].used && !s.rows[token].revoked && s.now < s.rows[token].expiresAt
      && successor !in s.rows && jti !in s.issued
    ensures
      var s := Exec(EMPTY, past);
      var s' := Step(s, Refresh(token, successor, jti));
      var f := s.rows[token].family;
      && Killed(Exec(s', future), f)
      && Members(Exec(s', future), f) == Members(s, f)
      && Successes(s', future, f) == 0
  {
    var s := Exec(EMPTY, past);
    ReplayKills(s, token, successor, jti);
    assert token in Members(s, s.rows[token].family);
    KilledForever(Step(s, Refresh(token, successor, jti)), future, s.rows[token].family);
  }

  /** Logout does the same to the family of the access token that logs out. */
  lemma LogoutEndsTheFamily(past: seq<Event>, jti: Jti, future: seq<Event>)
    requires jti in Exec(EMPTY, past).issued
    ensures
      var s := Exec(EMPTY, past);
      var s' := Step(s, Logout(jti));
      var f := s.issued[jti].sid;
      && Killed(Exec(s', future), f)
      && Members(Exec(s', future), f) == Members(s, f)
      && Successes(s', future, f) == 0
  {
    var s := Exec(EMPTY, past);
    IssuedHaveRows(EMPTY, past);
    var s' := Step(s, Logout(jti));
    var f := s.issued[jti].sid;
    LogoutKills(s, jti);
    assert Members(s', f) == Members(s, f);
    KilledForever(s', future, f);
  }

  /** An access token is only ever issued together with a row of its family. */
  lemma {:induction false} IssuedHaveRows(s: State, es: seq<Event>)
    requires forall j :: j in s.issued ==> Members(s, s.issued[j].sid) != {}
    ensures forall j :: j in Exec(s, es).issued ==> Members(Exec(s, es), Exec(s, es).issued[j].sid) != {}
    decreases |es|
  {
    if es != [] {
      var s', e := Step(s, es[0]), es[0];
      forall j | j in s'.issued ensures Members(s', s'.issued[j].sid) != {} {
        if j in s.issued {
          StepMembers(s, e, s.issued[j].sid);
        } else if e.Login? {
          assert e.token in Members(s', e.family);
        } else {
          assert e.successor in Members(s', s'.issued[j].sid);
        }
      }
      IssuedHaveRows(s', es[1..]);
    }
  }

  // ----- when a refresh token refreshes -----

  /** A row keeps its family and its expiry, and never becomes unused or unrevoked again. */
  lemma StepKeepsRow(s: State, e: Event, token: Token)
    requires token in s.rows
    ensures
      var s' := Step(s, e);
      && token in s'.rows && s'.rows[token].family == s.rows[token].family && s'.rows[token].expiresAt == s.rows[token].expiresAt
      && (s.rows[token].used ==> s'.rows[token].used) && (s.rows[token].revoked ==> s'.rows[token].revoked)
      && s'.now >= s.now
  {
  }

  lemma {:induction false} RunKeepsRow(s: State, es: seq<Event>, token: Token)
    requires token in s.rows
    ensures
      var s' := Exec(s, es);
      && token in s'.rows && s'.rows[token].family == s.rows[token].family && s'.rows[token].expiresAt == s.rows[token].expiresAt
      && (s.rows[token].used ==> s'.rows[token].used) && (s.rows[token].revoked ==> s'.rows[token].revoked)
      && s'.now >= s.now
    decreases |es|
  {
    if es != [] {
      StepKeepsRow(s, es[0], token);
      RunKeepsRow(Step(s, es[0]), es[1..], token);
    }
  }

  /** Presenting a token yields a successor exactly when its row is there, unused, unrevoked and not expired. */
  lemma RefreshesExactlyWhen(s: State, token: Token, successor: Token, jti: Jti)
    requires successor !in s.rows && jti !in s.issued
    ensures successor in Step(s, Refresh(token, successor, jti)).rows <==>
      token in s.rows && !s.rows[token].used && !s.rows[token].revoked && s.now < s.rows[token].expiresAt
  {
  }

  /** This event spends the token or ends its family: it is presented, a used one of the family is, or there is a logout. */
  predicate Spoils(s: State, e: Event, token: Token)
    requires token in s.rows
  {
    match e
    case Refresh(t, successor, jti) =>
      && successor !in s.rows && jti !in s.issued && t in s.rows
      && (t == token || (s.rows[t].family == s.rows[token].family && s.rows[t].used && !s.rows[t].revoked && s.now < s.rows[t].expiresAt))
    case Logout(jti) => jti in s.issued && s.issued[jti].sid == s.rows[token].family
    case Login(_, _, _) => false
    case Tick(_) => false
  }

  ghost predicate Spoiled(s: State, es: seq<Event>, token: Token)
    requires token in s.rows
    decreases |es|
  {
    es != [] && (Spoils(s, es[0], token) || (StepKeepsRow(s, es[0], token); Spoiled(Step(s, es[0]), es[1..], token)))
  }

  lemma StepSpoils(s: State, e: Event, token: Token)
    requires token in s.rows && !s.rows[token].used && !s.rows[token].revoked
    ensures
      var s' := Step(s, e);
      && token in s'.rows
      && (!Spoils(s, e, token) ==> !s'.rows[token].used && !s'.rows[token].revoked)
      && (Spoils(s, e, token) ==> s'.rows[token].used || s'.rows[token].revoked || s.rows[token].expiresAt <= s.now)
  {
  }

  lemma {:induction false} UsableUntilSpoiled(s: State, es: seq<Event>, token: Token)
    requires token in s.rows && !s.rows[token].used && !s.rows[token].revoked
    ensures
      var s' := Exec(s, es);
      && token in s'.rows
      && (!s'.rows[token].used && !s'.rows[token].revoked && s'.now < s.rows[token].expiresAt <==>
            !Spoiled(s, es, token) && s'.now < s.rows[token].expiresAt)
    decreases |es|
  {
    if es != [] {
      var s1 := Step(s, es[0]);
      StepKeepsRow(s, es[0], token);
      StepSpoils(s, es[0], token);
      RunKeepsRow(s1, es[1..], token);
      if !s1.rows[token].used && !s1.rows[token].revoked && !Spoils(s, es[0], token) {
        UsableUntilSpoiled(s1, es[1..], token);
      }
    }
  }

  /**
   * The life of a refresh token, after any history and for any continuation: issued at time t, it yields a successor
   * exactly while now < t + 30 days, as long as it has not been presented before, no used token of its family has been
   * replayed and none of its sessions has logged out.
   */
  lemma TokensRefreshOnceForThirtyDays(past: seq<Event>, e: Event, token: Token, future: seq<Event>, successor: Token, jti: Jti)
    requires token !in Exec(EMPTY, past).rows && token in Step(Exec(EMPTY, past), e).rows
    requires
      var s := Exec(Step(Exec(EMPTY, past), e), future);
      successor !in s.rows && jti !in s.issued
    ensures
      var t, s1 := Exec(EMPTY, past).now, Step(Exec(EMPTY, past), e);
      var s := Exec(s1, future);
      successor in Step(s, Refresh(token, successor, jti)).rows <==>
        s.now < t + 30 * 24 * 60 * 60 * 1000 && !Spoiled(s1, future, token)
  {
    var s1 := Step(Exec(EMPTY, past), e);
    var s := Exec(s1, future);
    RunKeepsRow(s1, future, token);
    UsableUntilSpoiled(s1, future, token);
    RefreshesExactlyWhen(s, token, successor, jti);
  }

  // ----- the denylist -----

  /** `isRevoked`. */
  predicate IsRevoked(s: State, jti: Jti) { jti in s.denylist && s.denylist[jti] > s.now }

  /** The expiry check compares whole epoch seconds (section 4.1.4 of RFC 7519: not on or after `exp`). */
  predicate Expired(s: State, a: Access) { s.now / 1000 >= a.exp }

  /** `verifyAccess` on a correctly signed token. */
  predicate Accepted(s: State, jti: Jti) {
    jti in s.issued && !Expired(s, s.issued[jti]) && !IsRevoked(s, jti)
  }

  /** The seconds of the claim and the milliseconds of the table agree on the moment of expiry. */
  lemma SecondsAndMillis(now: nat, exp: int)
    ensures now / 1000 >= exp <==> exp * 1000 <= now
  {
  }

  /** Every entry lives exactly as long as its token. */
  ghost predicate EntriesMatch(s: State) {
    forall j :: j in s.denylist ==> j in s.issued && s.denylist[j] == s.issued[j].exp * 1000
  }

  lemma StepKeepsEntries(s: State, e: Event)
    requires EntriesMatch(s)
    ensures EntriesMatch(Step(s, e))
    ensures forall j :: j in s.issued ==> j in Step(s, e).issued && Step(s, e).issued[j] == s.issued[j]
    ensures s.now <= Step(s, e).now
  {
  }

  /** The token has expired, or its entry is still there. */
  ghost predicate Barred(s: State, jti: Jti) {
    jti in s.issued && (s.issued[jti].exp * 1000 <= s.now || jti in s.denylist)
  }

  lemma StepKeepsBarred(s: State, e: Event, jti: Jti)
    requires EntriesMatch(s) && jti in s.issued
    ensures Barred(s, jti) || e == Logout(jti) ==> Barred(Step(s, e), jti)
    ensures jti !in s.denylist && e != Logout(jti) ==> jti !in Step(s, e).denylist
  {
  }

  /**
   * The denylist is exact although any logout may delete entries: from a state in which the token is issued and not
   * denied, it is accepted at a later time if and only if it has not expired and has not been logged out.
   */
  lemma {:induction false} AcceptedUntilLogoutOrExpiry(s: State, es: seq<Event>, jti: Jti)
    requires EntriesMatch(s) && jti in s.issued && jti !in s.denylist
    ensures jti in Exec(s, es).issued && Exec(s, es).issued[jti] == s.issued[jti]
    ensures Accepted(Exec(s, es), jti) <==> Exec(s, es).now < s.issued[jti].exp * 1000 && Logout(jti) !in es
    decreases |es|
  {
    SecondsAndMillis(s.now, s.issued[jti].exp);
    if es != [] {
      var e, rest, s' := es[0], es[1..], Step(s, es[0]);
      assert es == [e] + rest;
      StepKeepsEntries(s, e);
      StepKeepsBarred(s, e, jti);
      if e == Logout(jti) {
        BarredForever(s', rest, jti);
      } else {
        AcceptedUntilLogoutOrExpiry(s', rest, jti);
      }
    }
  }

  /** Once logged out, never accepted again at any later time. */
  lemma {:induction false} BarredForever(s: State, es: seq<Event>, jti: Jti)
    requires EntriesMatch(s) && Barred(s, jti)
    ensures jti in Exec(s, es).issued && Exec(s, es).issued[jti] == s.issued[jti]
    ensures Exec(s, es).now >= s.now && Barred(Exec(s, es), jti) && !Accepted(Exec(s, es), jti)
    decreases |es|
  {
    if es == [] {
      SecondsAndMillis(s.now, s.issued[jti].exp);
    } else {
      StepKeepsEntries(s, es[0]);
      StepKeepsBarred(s, es[0], jti);
      BarredForever(Step(s, es[0]), es[1..], jti);
    }
  }

  lemma {:induction false} EntriesAlways(s: State, es: seq<Event>)
    requires EntriesMatch(s)
    ensures EntriesMatch(Exec(s, es))
    decreases |es|
  {
    if es != [] {
      StepKeepsEntries(s, es[0]);
      EntriesAlways(Step(s, es[0]), es[1..]);
    }
  }

  /** The life of an access token: issued at time t, it is accepted for ten minutes from the second of t, until logged out. */
  lemma AccessLivesTenMinutes(past: seq<Event>, e: Event, jti: Jti, future: seq<Event>)
    requires jti !in Exec(EMPTY, past).issued && jti in Step(Exec(EMPTY, past), e).issued
    ensures
      var t, s := Exec(EMPTY, past).now, Exec(Step(Exec(EMPTY, past), e), future);
      Accepted(s, jti) <==> s.now < (t / 1000 + 10 * 60) * 1000 && Logout(jti) !in future
  {
    EntriesAlways(EMPTY, past);
    StepKeepsEntries(Exec(EMPTY, past), e);
    AcceptedUntilLogoutOrExpiry(Step(Exec(EMPTY, past), e), future, jti);
  }

  lemma LoggedOutIsNeverAcceptedAgain(past: seq<Event>, jti: Jti, future: seq<Event>)
    requires jti in Exec(EMPTY, past).issued
    ensures !Accepted(Exec(Step(Exec(EMPTY, past), Logout(jti)), future), jti)
  {
    var s := Exec(EMPTY, past);
    EntriesAlways(EMPTY, past);
    StepKeepsEntries(s, Logout(jti));
    StepKeepsBarred(s, Logout(jti), jti);
    BarredForever(Step(s, Logout(jti)), future, jti);
  }

  // ----- the service -----

  /** `AuthService` over its two tables; every method is one committed transaction of the machine above. */
  class AuthService {
    var now: nat
    var rows: map<Token, Row>
    var denylist: map<Jti, int>
    var issued: map<Jti, Access>

    function View(): State
      reads this
    {
      State(now, rows, denylist, issued)
    }

    constructor ()
      ensures View() == EMPTY
    {
      now, rows, denylist, issued := 0, map[], map[], map[];
    }

    method Sleep(ms: nat)
      modifies this`now
      ensures View() == Step(old(View()), Tick(ms))
    {
      now := now + ms;
    }

    method IssuePair(f: Family, token: Token, jti: Jti)
      modifies this`rows, this`issued
      ensures View() == Issue(old(View()), f, token, jti)
    {
      rows := rows[token := Row(f, false, false, now + REFRESH_TTL_SECONDS * 1000)];
      issued := issued[jti := Access(f, now / 1000 + ACCESS_TTL_SECONDS)];
    }

    method LoginUser(f: Family, token: Token, jti: Jti)
      requires Fresh(View(), token, jti) && FamilyUnused(View(), f)
      modifies this`rows, this`issued
      ensures View() == Step(old(View()), Login(f, token, jti))
    {
      IssuePair(f, token, jti);
    }

    method MarkFamilyRevoked(f: Family)
      modifies this`rows
      ensures rows == RevokeFamily(old(rows), f)
      ensures rows.Keys == old(rows).Keys && forall t :: t in rows ==>
        rows[t] == if old(rows)[t].family == f then old(rows)[t].(revoked := true) else old(rows)[t]
    {
      rows := map t | t in rows :: if rows[t].family == f && !rows[t].revoked then rows[t].(revoked := true) else rows[t];
    }

    /**
     * `refresh`: the outcome is a value; the caller turns it into an error only after the commit. A token is rotated
     * exactly when it is there, unused, unrevoked and not expired; a used one that is neither revoked nor expired takes
     * its family with it; any other changes nothing.
     */
    method RefreshToken(token: Token, successor: Token, jti: Jti) returns (outcome: Outcome)
      requires Fresh(View(), successor, jti)
      modifies this`rows, this`issued
      ensures outcome == RefreshOutcome(old(View()), token)
      ensures View() == Step(old(View()), Refresh(token, successor, jti))
      ensures outcome == Issued <==> successor in rows
      ensures
        var usable := token in old(rows) && !old(rows)[token].revoked && now < old(rows)[token].expiresAt;
        && (outcome == Issued <==> usable && !old(rows)[token].used)
        && (outcome == Reuse <==> usable && old(rows)[token].used)
      ensures outcome == Issued ==>
        var row := old(rows)[token];
        && rows == old(rows)[token := row.(used := true)][successor := Row(row.family, false, false, now + 2_592_000_000)]
        && issued == old(issued)[jti := Access(row.family, now / 1000 + 600)]
      ensures outcome == Reuse ==>
        && issued == old(issued) && rows.Keys == old(rows).Keys
        && forall t :: t in rows ==>
             rows[t] == if old(rows)[t].family == old(rows)[token].family then old(rows)[t].(revoked := true) else old(rows)[t]
      ensures outcome == Invalid ==> rows == old(rows) && issued == old(issued)
    {
      if token !in rows || rows[token].revoked || rows[token].expiresAt <= now {
        return Invalid;
      }
      var row := rows[token];
      if row.used {
        MarkFamilyRevoked(row.family);
        return Reuse;
      }
      rows := rows[token := row.(used := true)];
      IssuePair(row.family, successor, jti);
      outcome := Issued;
    }

    /** `logout` with the claims of an access token the guard has verified. */
    method LogoutUser(jti: Jti)
      requires jti in issued
      modifies this`rows, this`denylist
      ensures View() == Step(old(View()), Logout(jti))
      ensures rows.Keys == old(rows).Keys && forall t :: t in rows ==>
        rows[t] == if old(rows)[t].family == issued[jti].sid then old(rows)[t].(revoked := true) else old(rows)[t]
      ensures forall j :: j in denylist <==>
        if j in old(denylist) then old(denylist)[j] > now else j == jti && issued[jti].exp * 1000 > now
      ensures forall j :: j in denylist ==> denylist[j] == if j in old(denylist) then old(denylist)[j] else issued[jti].exp * 1000
    {
      MarkFamilyRevoked(issued[jti].sid);
      if jti !in denylist {
        denylist := denylist[jti := issued[jti].exp * 1000];
      }
      denylist := map j | j in denylist && denylist[j] > now :: denylist[j];
    }

    method VerifyAccess(jti: Jti) returns (accepted: bool)
      requires jti in issued
      ensures accepted <==> Accepted(View(), jti)
      ensures accepted <==> now / 1000 < issued[jti].exp && (jti in denylist ==> denylist[jti] <= now)
    {
      if now / 1000 >= issued[jti].exp {
        return false;
      }
      accepted := !(jti in denylist && denylist[jti] > now);
    }
  }
}

/**
 * Refresh sessions and their rotation. A refresh runs in three steps - look the token up, redeem its session in
 * one transaction, issue the next session - with anything in between. Distinct tokens hash distinctly.
 */
module Sessions {
  import opened Prelude

  type Token = nat

  datatype Session = Session(user: UserId, token: Token, expiresAt: int, revoked: bool)

  /** Where a refresh stands. A redeemed session has been spent; `Stopped` refreshes spent theirs for nothing. */
  datatype Refresh =
    | Looked(session: nat)
    | Redeemed(session: nat)
    | Renewed(session: nat)
    | Stopped(session: nat)
    | Refused

  /** `logins` records whom sessions were issued to by a login or a verification. */
  datatype Store = Store(sessions: seq<Session>, refreshes: seq<Refresh>, logins: seq<UserId>)

  const EMPTY: Store := Store([], [], [])

  datatype Event =
    | LogIn(user: UserId, token: Token, expiresAt: int)
    | Lookup(token: Token)
    | Consume(refresh: nat, now: int)
    | Reissue(refresh: nat, token: Token, expiresAt: int)
    | Stop(refresh: nat)
    | RevokeByToken(token: Token)
    | RevokeAll(user: UserId)

  predicate Fresh(ss: seq<Session>, token: Token) {
    forall i :: 0 <= i < |ss| ==> ss[i].token != token
  }

  function Find(ss: seq<Session>, token: Token, i: nat): (r: Option<nat>)
    requires i <= |ss|
    ensures r.Some? ==> i <= r.value < |ss| && ss[r.value].token == token
    ensures r.None? ==> forall k :: i <= k < |ss| ==> ss[k].token != token
    decreases |ss| - i
  {
    if i == |ss| then None else if ss[i].token == token then Some(i) else Find(ss, token, i + 1)
  }

  function Issued(ss: seq<Session>, user: UserId, token: Token, expiresAt: int): seq<Session> {
    ss + [Session(user, token, expiresAt, false)]
  }

  predicate Redeemable(s: Session, now: int) {
    !s.revoked && now < s.expiresAt
  }

  function RevokeToken(ss: seq<Session>, token: Token): (r: seq<Session>)
    ensures |r| == |ss|
  {
    seq(|ss|, i requires 0 <= i < |ss| => if ss[i].token == token then ss[i].(revoked := true) else ss[i])
  }

  function RevokeUser(ss: seq<Session>, user: UserId): (r: seq<Session>)
    ensures |r| == |ss|
  {
    seq(|ss|, i requires 0 <= i < |ss| => if ss[i].user == user then ss[i].(revoked := true) else ss[i])
  }

  /** Validate and revoke, in one transaction under the session's row lock. */
  function Redeem(x: Store, k: nat, now: int): Store {
    if k >= |x.refreshes| || !x.refreshes[k].Looked? || x.refreshes[k].session >= |x.sessions| then x
    else
      var i := x.refreshes[k].session;
      if !Redeemable(x.sessions[i], now) then x.(refreshes := x.refreshes[k := Refused])
      else x.(refreshes := x.refreshes[k := Redeemed(i)], sessions := x.sessions[i := x.sessions[i].(revoked := true)])
  }

  function Renew(x: Store, k: nat, token: Token, expiresAt: int): Store {
    if k >= |x.refreshes| || !x.refreshes[k].Redeemed? || x.refreshes[k].session >= |x.sessions| || !Fresh(x.sessions, token) then x
    else
      var i := x.refreshes[k].session;
      x.(refreshes := x.refreshes[k := Renewed(i)], sessions := Issued(x.sessions, x.sessions[i].user, token, expiresAt))
  }

  /** The refresh ends early: the user is gone or blocked, or the process died. */
  function Abandon(x: Store, k: nat): Store {
    if k >= |x.refreshes| then x
    else
      match x.refreshes[k]
      case Looked(_) => x.(refreshes := x.refreshes[k := Refused])
      case Redeemed(i) => x.(refreshes := x.refreshes[k := Stopped(i)])
      case _ => x
  }

  function Step(x: Store, e: Event): Store {
    match e
    case LogIn(user, token, expiresAt) =>
      if !Fresh(x.sessions, token) then x
      else x.(sessions := Issued(x.sessions, user, token, expiresAt), logins := x.logins + [user])
    case Lookup(token) =>
      var found := Find(x.sessions, token, 0);
      x.(refreshes := x.refreshes + [if found.Some? then Looked(found.value) else Refused])
    case Consume(k, now) => Redeem(x, k, now)
    case Reissue(k, token, expiresAt) => Renew(x, k, token, expiresAt)
    case Stop(k) => Abandon(x, k)
    case RevokeByToken(token) => x.(sessions := RevokeToken(x.sessions, token))
    case RevokeAll(user) => x.(sessions := RevokeUser(x.sessions, user))
  }

  function Run(x: Store, events: seq<Event>): Store
    decreases |events|
  {
    if events == [] then x else Run(Step(x, events[0]), events[1..])
  }

  // ---- Redemption -----------------------------------------------------------------

  predicate Spends(r: Refresh, i: nat) {
    r == Redeemed(i) || r == Renewed(i) || r == Stopped(i)
  }

  /** How many refreshes have redeemed session i. */
  function Redemptions(rs: seq<Refresh>, i: nat): nat {
    if rs == [] then 0 else Redemptions(rs[..|rs| - 1], i) + if Spends(rs[|rs| - 1], i) then 1 else 0
  }

  predicate Names(r: Refresh, n: nat) {
    r.Refused? || r.session < n
  }

  /** Tokens are distinct, and a session is redeemed at most once, and then is revoked. */
  ghost predicate Inv(x: Store) {
    && (forall i, j :: 0 <= i < j < |x.sessions| ==> x.sessions[i].token != x.sessions[j].token)
    && (forall k :: 0 <= k < |x.refreshes| ==> Names(x.refreshes[k], |x.sessions|))
    && (forall i: nat :: Redemptions(x.refreshes, i) <= if i < |x.sessions| && x.sessions[i].revoked then 1 else 0)
  }

  lemma {:induction false} RedemptionsUpdate(rs: seq<Refresh>, k: nat, r: Refresh, i: nat)
    requires k < |rs|
    ensures Redemptions(rs[k := r], i) + (if Spends(rs[k], i) then 1 else 0) == Redemptions(rs, i) + if Spends(r, i) then 1 else 0
  {
    var n := |rs| - 1;
    if k < n {
      assert rs[k := r][..n] == rs[..n][k := r];
      RedemptionsUpdate(rs[..n], k, r, i);
    } else {
      assert rs[k := r][..n] == rs[..n];
    }
  }

  lemma RedemptionsMove(x: Store, k: nat, r: Refresh)
    requires k < |x.refreshes|
    ensures forall i: nat :: Redemptions(x.refreshes[k := r], i) + (if Spends(x.refreshes[k], i) then 1 else 0)
                             == Redemptions(x.refreshes, i) + if Spends(r, i) then 1 else 0
  {
    forall i: nat
      ensures Redemptions(x.refreshes[k := r], i) + (if Spends(x.refreshes[k], i) then 1 else 0)
              == Redemptions(x.refreshes, i) + if Spends(r, i) then 1 else 0
    {
      RedemptionsUpdate(x.refreshes, k, r, i);
    }
  }

  lemma RedeemKeepsInv(x: Store, k: nat, now: int)
    requires Inv(x)
    ensures Inv(Redeem(x, k, now))
  {
    var y := Redeem(x, k, now);
    if y != x {
      RedemptionsMove(x, k, y.refreshes[k]);
    }
  }

  lemma RenewKeepsInv(x: Store, k: nat, token: Token, expiresAt: int)
    requires Inv(x)
    ensures Inv(Renew(x, k, token, expiresAt))
  {
    var y := Renew(x, k, token, expiresAt);
    if y != x {
      RedemptionsMove(x, k, y.refreshes[k]);
    }
  }

  lemma AbandonKeepsInv(x: Store, k: nat)
    requires Inv(x)
    ensures Inv(Abandon(x, k))
  {
    var y := Abandon(x, k);
    if y != x { RedemptionsMove(x, k, y.refreshes[k]); }
  }

  lemma LookupKeepsInv(x: Store, token: Token)
    requires Inv(x)
    ensures Inv(Step(x, Lookup(token)))
  {
    var y := Step(x, Lookup(token));
    assert y.refreshes[..|x.refreshes|] == x.refreshes;
    forall i: nat ensures Redemptions(y.refreshes, i) == Redemptions(x.refreshes, i) {
    }
  }

  lemma StepKeepsInv(x: Store, e: Event)
    requires Inv(x)
    ensures Inv(Step(x, e))
  {
    match e
    case LogIn(user, token, expiresAt) =>
    case Lookup(token) => LookupKeepsInv(x, token);
    case Consume(k, now) => RedeemKeepsInv(x, k, now);
    case Reissue(k, token, expiresAt) => RenewKeepsInv(x, k, token, expiresAt);
    case Stop(k) => AbandonKeepsInv(x, k);
    case RevokeByToken(token) =>
    case RevokeAll(user) =>
  }

  lemma {:induction false} RunKeepsInv(x: Store, events: seq<Event>)
    requires Inv(x)
    ensures Inv(Run(x, events))
    decreases |events|
  {
    if events != [] {
      StepKeepsInv(x, events[0]);
      RunKeepsInv(Step(x, events[0]), events[1..]);
    }
  }

  lemma EmptyIsSound()
    ensures Inv(EMPTY)
  {
  }

  /** In any interleaving, each session is redeemed at most once. */
  lemma RedeemedOnce(events: seq<Event>, i: nat)
    ensures Redemptions(Run(EMPTY, events).refreshes, i) <= 1
  {
    EmptyIsSound();
    RunKeepsInv(EMPTY, events);
  }

  // ---- Revocation -----------------------------------------------------------------

  lemma StepKeepsRevoked(x: Store, e: Event, i: nat)
    requires i < |x.sessions|
    ensures var y := Step(x, e);
            && i < |y.sessions| && y.sessions[i] == x.sessions[i].(revoked := y.sessions[i].revoked)
            && (x.sessions[i].revoked ==> y.sessions[i].revoked)
  {
  }

  lemma RevokedIsNotRedeemed(x: Store, e: Event, i: nat)
    requires Inv(x) && i < |x.sessions| && x.sessions[i].revoked
    ensures Redemptions(Step(x, e).refreshes, i) == Redemptions(x.refreshes, i)
  {
    var y := Step(x, e);
    match e
    case Lookup(token) => assert y.refreshes[..|x.refreshes|] == x.refreshes;
    case Consume(k, _) => if y != x { RedemptionsUpdate(x.refreshes, k, y.refreshes[k], i); }
    case Reissue(k, _, _) => if y != x { RedemptionsUpdate(x.refreshes, k, y.refreshes[k], i); }
    case Stop(k) => if y != x { RedemptionsUpdate(x.refreshes, k, y.refreshes[k], i); }
    case _ =>
  }

  /** Once revoked, by logout, by a password reset or by its own redemption, a session is never redeemed (again). */
  lemma {:induction false} RevokedStaysUnredeemed(x: Store, events: seq<Event>, i: nat)
    requires Inv(x) && i < |x.sessions| && x.sessions[i].revoked
    ensures Redemptions(Run(x, events).refreshes, i) == Redemptions(x.refreshes, i)
    decreases |events|
  {
    if events != [] {
      StepKeepsRevoked(x, events[0], i);
      RevokedIsNotRedeemed(x, events[0], i);
      StepKeepsInv(x, events[0]);
      RevokedStaysUnredeemed(Step(x, events[0]), events[1..], i);
    }
  }

  // ---- Conservation ---------------------------------------------------------------

  function Live(ss: seq<Session>, user: UserId): nat {
    if ss == [] then 0
    else Live(ss[..|ss| - 1], user) + if ss[|ss| - 1].user == user && !ss[|ss| - 1].revoked then 1 else 0
  }

  predicate Carries(r: Refresh, ss: seq<Session>, user: UserId) {
    r.Redeemed? && r.session < |ss| && ss[r.session].user == user
  }

  /** Refreshes of the user between redeeming a session and issuing the next. */
  function InFlight(rs: seq<Refresh>, ss: seq<Session>, user: UserId): nat {
    if rs == [] then 0
    else InFlight(rs[..|rs| - 1], ss, user) + if Carries(rs[|rs| - 1], ss, user) then 1 else 0
  }

  function LoginsOf(logins: seq<UserId>, user: UserId): nat {
    if logins == [] then 0
    else LoginsOf(logins[..|logins| - 1], user) + if logins[|logins| - 1] == user then 1 else 0
  }

  /** Ways into the account. */
  function Doors(x: Store, user: UserId): nat {
    Live(x.sessions, user) + InFlight(x.refreshes, x.sessions, user)
  }

  lemma {:induction false} LiveUpdate(ss: seq<Session>, i: nat, user: UserId)
    requires i < |ss| && !ss[i].revoked
    ensures Live(ss[i := ss[i].(revoked := true)], user) + (if ss[i].user == user then 1 else 0) == Live(ss, user)
  {
    var n, s := |ss| - 1, ss[i].(revoked := true);
    if i < n {
      assert ss[i := s][..n] == ss[..n][i := s];
      LiveUpdate(ss[..n], i, user);
    } else {
      assert ss[i := s][..n] == ss[..n];
    }
  }

  lemma LiveAppend(ss: seq<Session>, s: Session, user: UserId)
    requires !s.revoked
    ensures Live(ss + [s], user) == Live(ss, user) + if s.user == user then 1 else 0
  {
    assert (ss + [s])[..|ss|] == ss;
  }

  lemma {:induction false} RevokedTokenLives(ss: seq<Session>, token: Token, user: UserId)
    ensures Live(RevokeToken(ss, token), user) <= Live(ss, user)
  {
    if ss != [] {
      var n := |ss| - 1;
      assert RevokeToken(ss, token)[..n] == RevokeToken(ss[..n], token);
      RevokedTokenLives(ss[..n], token, user);
    }
  }

  lemma {:induction false} RevokedUserLives(ss: seq<Session>, revoked: UserId, user: UserId)
    ensures Live(RevokeUser(ss, revoked), user) == if user == revoked then 0 else Live(ss, user)
  {
    if ss != [] {
      var n := |ss| - 1;
      assert RevokeUser(ss, revoked)[..n] == RevokeUser(ss[..n], revoked);
      RevokedUserLives(ss[..n], revoked, user);
    }
  }

  predicate SameOwners(ss: seq<Session>, ss': seq<Session>) {
    |ss| <= |ss'| && forall i :: 0 <= i < |ss| ==> ss[i].user == ss'[i].user
  }

  lemma {:induction false} SameInFlight(rs: seq<Refresh>, ss: seq<Session>, ss': seq<Session>, user: UserId)
    requires SameOwners(ss, ss') && forall k :: 0 <= k < |rs| ==> Names(rs[k], |ss|)
    ensures InFlight(rs, ss', user) == InFlight(rs, ss, user)
  {
    if rs != [] {
      assert Names(rs[|rs| - 1], |ss|);
      SameInFlight(rs[..|rs| - 1], ss, ss', user);
    }
  }

  lemma {:induction false} InFlightUpdate(rs: seq<Refresh>, k: nat, r: Refresh, ss: seq<Session>, user: UserId)
    requires k < |rs|
    ensures InFlight(rs[k := r], ss, user) + (if Carries(rs[k], ss, user) then 1 else 0)
            == InFlight(rs, ss, user) + if Carries(r, ss, user) then 1 else 0
  {
    var n := |rs| - 1;
    if k < n {
      assert rs[k := r][..n] == rs[..n][k := r];
      InFlightUpdate(rs[..n], k, r, ss, user);
    } else {
      assert rs[k := r][..n] == rs[..n];
    }
  }

  lemma RedeemConserves(x: Store, k: nat, now: int, user: UserId)
    requires Inv(x)
    ensures Doors(Redeem(x, k, now), user) == Doors(x, user)
  {
    var y := Redeem(x, k, now);
    if y != x {
      var i := x.refreshes[k].session;
      InFlightUpdate(x.refreshes, k, y.refreshes[k], x.sessions, user);
      if Redeemable(x.sessions[i], now) {
        LiveUpdate(x.sessions, i, user);
        assert forall j :: 0 <= j < |y.refreshes| ==> Names(y.refreshes[j], |x.sessions|);
        SameInFlight(y.refreshes, x.sessions, y.sessions, user);
      }
    }
  }

  lemma RenewConserves(x: Store, k: nat, token: Token, expiresAt: int, user: UserId)
    requires Inv(x)
    ensures Doors(Renew(x, k, token, expiresAt), user) == Doors(x, user)
  {
    var y := Renew(x, k, token, expiresAt);
    if y != x {
      var i := x.refreshes[k].session;
      InFlightUpdate(x.refreshes, k, y.refreshes[k], x.sessions, user);
      LiveAppend(x.sessions, Session(x.sessions[i].user, token, expiresAt, false), user);
      assert forall j :: 0 <= j < |y.refreshes| ==> Names(y.refreshes[j], |x.sessions|);
      SameInFlight(y.refreshes, x.sessions, y.sessions, user);
    }
  }

  lemma AbandonConserves(x: Store, k: nat, user: UserId)
    ensures Doors(Abandon(x, k), user) <= Doors(x, user)
  {
    var y := Abandon(x, k);
    if y != x { InFlightUpdate(x.refreshes, k, y.refreshes[k], x.sessions, user); }
  }

  lemma LogInConserves(x: Store, who: UserId, token: Token, expiresAt: int, user: UserId)
    requires Inv(x)
    ensures var y := Step(x, LogIn(who, token, expiresAt));
            Doors(y, user) - LoginsOf(y.logins, user) == Doors(x, user) - LoginsOf(x.logins, user)
  {
    var y := Step(x, LogIn(who, token, expiresAt));
    if y != x {
      LiveAppend(x.sessions, Session(who, token, expiresAt, false), user);
      SameInFlight(x.refreshes, x.sessions, y.sessions, user);
      assert y.logins[..|x.logins|] == x.logins;
    }
  }

  lemma StepConserves(x: Store, e: Event, user: UserId)
    requires Inv(x)
    ensures Doors(Step(x, e), user) - LoginsOf(Step(x, e).logins, user) <= Doors(x, user) - LoginsOf(x.logins, user)
  {
    var y := Step(x, e);
    match e
    case LogIn(who, token, expiresAt) => LogInConserves(x, who, token, expiresAt, user);
    case Lookup(token) => assert y.refreshes[..|x.refreshes|] == x.refreshes;
    case Consume(k, now) => RedeemConserves(x, k, now, user);
    case Reissue(k, token, expiresAt) => RenewConserves(x, k, token, expiresAt, user);
    case Stop(k) => AbandonConserves(x, k, user);
    case RevokeByToken(token) =>
      RevokedTokenLives(x.sessions, token, user);
      SameInFlight(x.refreshes, x.sessions, y.sessions, user);
    case RevokeAll(revoked) =>
      RevokedUserLives(x.sessions, revoked, user);
      SameInFlight(x.refreshes, x.sessions, y.sessions, user);
  }

  /** Only logging in opens a way into an account: rotation at best keeps their number. */
  lemma {:induction false} OnlyLoginsOpenDoors(x: Store, events: seq<Event>, user: UserId)
    requires Inv(x)
    ensures var y := Run(x, events);
            Doors(y, user) - LoginsOf(y.logins, user) <= Doors(x, user) - LoginsOf(x.logins, user)
    decreases |events|
  {
    if events != [] {
      StepConserves(x, events[0], user);
      StepKeepsInv(x, events[0]);
      OnlyLoginsOpenDoors(Step(x, events[0]), events[1..], user);
    }
  }

  /** A user's live sessions and in-flight refreshes never exceed its logins. */
  lemma SessionsAreConserved(events: seq<Event>, user: UserId)
    ensures var y := Run(EMPTY, events);
            Live(y.sessions, user) + InFlight(y.refreshes, y.sessions, user) <= LoginsOf(y.logins, user)
  {
    EmptyIsSound();
    OnlyLoginsOpenDoors(EMPTY, events, user);
  }

  /**
   * Revoking all sessions closes every door but those of refreshes in flight at that moment: whatever happens
   * afterwards, there are no more than these and the later logins.
   */
  lemma RevokeAllCloses(x: Store, events: seq<Event>, user: UserId)
    requires Inv(x)
    ensures var y := Run(Step(x, RevokeAll(user)), events);
            Doors(y, user) <= InFlight(x.refreshes, x.sessions, user) + LoginsOf(y.logins, user) - LoginsOf(x.logins, user)
  {
    var r := Step(x, RevokeAll(user));
    RevokedUserLives(x.sessions, user, user);
    SameInFlight(x.refreshes, x.sessions, r.sessions, user);
    StepKeepsInv(x, RevokeAll(user));
    OnlyLoginsOpenDoors(r, events, user);
  }

  // ---- What revoking everything leaves --------------------------------------------

  /** Nobody logs in as the user. */
  predicate NoLogin(events: seq<Event>, user: UserId) {
    forall i :: 0 <= i < |events| ==> !(events[i].LogIn? && events[i].user == user)
  }

  lemma {:induction false} LoginsStay(x: Store, events: seq<Event>, user: UserId)
    requires NoLogin(events, user)
    ensures LoginsOf(Run(x, events).logins, user) == LoginsOf(x.logins, user)
    decreases |events|
  {
    if events != [] {
      var y := Step(x, events[0]);
      assert events[0] == events[0] && !(events[0].LogIn? && events[0].user == user);
      if y.logins != x.logins { assert y.logins[..|x.logins|] == x.logins; }
      assert forall i :: 0 <= i < |events[1..]| ==> events[1..][i] == events[i + 1];
      LoginsStay(y, events[1..], user);
    }
  }

  /** The refresh that is past redeeming and has still to issue. */
  lemma {:induction false} FindCarrier(rs: seq<Refresh>, ss: seq<Session>, user: UserId) returns (k: nat)
    requires InFlight(rs, ss, user) > 0
    ensures k < |rs| && Carries(rs[k], ss, user)
  {
    var n := |rs| - 1;
    if Carries(rs[n], ss, user) { k := n; } else { k := FindCarrier(rs[..n], ss, user); }
  }

  function Unused(ss: seq<Session>): (t: Token)
    ensures forall i :: 0 <= i < |ss| ==> ss[i].token < t
  {
    if ss == [] then 0
    else
      var t := Unused(ss[..|ss| - 1]);
      if ss[|ss| - 1].token < t then t else ss[|ss| - 1].token + 1
  }

  /** A live session of the user can come out of some run without a login. */
  ghost predicate CanReturn(x: Store, user: UserId) {
    exists events :: NoLogin(events, user) && Live(Run(x, events).sessions, user) > 0
  }

  lemma CarrierReturns(x: Store, user: UserId, expiresAt: int)
    requires InFlight(x.refreshes, x.sessions, user) > 0
    ensures CanReturn(x, user)
  {
    var k := FindCarrier(x.refreshes, x.sessions, user);
    var e := Reissue(k, Unused(x.sessions), expiresAt);
    var y := Step(x, e);
    LiveAppend(x.sessions, Session(user, Unused(x.sessions), expiresAt, false), user);
    assert [e][1..] == [] && Run(x, [e]) == Run(y, []) == y;
    assert NoLogin([e], user);
  }

  /**
   * Revoking all sessions forces a new login exactly when no refresh of the user is in flight at that moment: one
   * that has redeemed its session and not yet issued the next can still come back with a live one.
   */
  lemma RevokeAllForcesLoginIffNoneInFlight(x: Store, user: UserId)
    requires Inv(x)
    ensures !CanReturn(Step(x, RevokeAll(user)), user) <==> InFlight(x.refreshes, x.sessions, user) == 0
  {
    var r := Step(x, RevokeAll(user));
    SameInFlight(x.refreshes, x.sessions, r.sessions, user);
    if InFlight(x.refreshes, x.sessions, user) > 0 {
      CarrierReturns(r, user, 0);
    } else if CanReturn(r, user) {
      var events :| NoLogin(events, user) && Live(Run(r, events).sessions, user) > 0;
      RevokeAllCloses(x, events, user);
      LoginsStay(r, events, user);
    }
  }

  /** One such run: log in, look the token up, redeem it, revoke everything, and the refresh still issues. */
  lemma RefreshOutlivesRevokeAll(user: UserId)
    ensures var x := Store([Session(user, 0, 1, true)], [Redeemed(0)], [user]);
            && x == Run(EMPTY, [LogIn(user, 0, 1)] + ([Lookup(0)] + ([Consume(0, 0)] + [])))
            && Live(Run(x, [RevokeAll(user)] + ([Reissue(0, 1, 2)] + [])).sessions, user) == 1
  {
    var x1 := Store([Session(user, 0, 1, false)], [], [user]);
    var x2 := x1.(refreshes := [Looked(0)]);
    var x3 := Store([Session(user, 0, 1, true)], [Redeemed(0)], [user]);
    Then(EMPTY, LogIn(user, 0, 1), [Lookup(0)] + ([Consume(0, 0)] + []));
    Then(x1, Lookup(0), [Consume(0, 0)] + []);
    Then(x2, Consume(0, 0), []);
    assert Step(EMPTY, LogIn(user, 0, 1)) == x1 && Step(x1, Lookup(0)) == x2;
    assert x2.sessions[0 := x2.sessions[0].(revoked := true)] == x3.sessions;
    assert Step(x2, Consume(0, 0)) == x3;
    var x4 := x3.(refreshes := [Renewed(0)], sessions := x3.sessions + [Session(user, 1, 2, false)]);
    Then(x3, RevokeAll(user), [Reissue(0, 1, 2)] + []);
    Then(x3, Reissue(0, 1, 2), []);
    assert RevokeUser(x3.sessions, user) == x3.sessions;
    assert Step(x3, RevokeAll(user)) == x3 && Step(x3, Reissue(0, 1, 2)) == x4;
    LiveAppend(x3.sessions, Session(user, 1, 2, false), user);
    assert x3.sessions[..0] == [] && Live(x3.sessions, user) == 0;
  }

  lemma Then(x: Store, e: Event, rest: seq<Event>)
    ensures Run(x, [e] + rest) == Run(Step(x, e), rest)
  {
    assert ([e] + rest)[1..] == rest;
  }

  // ---- The service ----------------------------------------------------------------

  predicate NotOf(e: Event, me: nat) {
    e != Stop(me) && !(e.Consume? && e.refresh == me) && !(e.Reissue? && e.refresh == me)
  }

  lemma {:induction false} RunAppends(x: Store, events: seq<Event>, e: Event)
    ensures Run(x, events + [e]) == Step(Run(x, events), e)
    decreases |events|
  {
    if events == [] {
      assert Run(Step(x, e), []) == Step(x, e);
    } else {
      assert (events + [e])[1..] == events[1..] + [e];
      RunAppends(Step(x, events[0]), events[1..], e);
    }
  }

  lemma {:induction false} SpentOnce(rs: seq<Refresh>, k: nat, i: nat)
    requires k < |rs| && Spends(rs[k], i)
    ensures Redemptions(rs, i) > 0
  {
    if k < |rs| - 1 { SpentOnce(rs[..|rs| - 1], k, i); }
  }

  // ---- A refresh rotates ----------------------------------------------------------

  /** Session i carries the token and can be redeemed. */
  predicate IsLiveAt(x: Store, i: nat, token: Token, now: int) {
    i < |x.sessions| && x.sessions[i].token == token && !x.sessions[i].revoked && now < x.sessions[i].expiresAt
  }

  lemma TokenIsFound(x: Store, token: Token, i: nat)
    requires Inv(x) && i < |x.sessions| && x.sessions[i].token == token
    ensures Find(x.sessions, token, 0) == Some(i)
  {
  }

  function Rotated(x: Store, token: Token, now: int, next: Token, expiresAt: int): Store {
    var k := |x.refreshes|;
    Step(Step(Step(x, Lookup(token)), Consume(k, now)), Reissue(k, next, expiresAt))
  }

  lemma RotatedIsRun(x: Store, token: Token, now: int, next: Token, expiresAt: int)
    ensures var k := |x.refreshes|;
            Run(x, [Lookup(token), Consume(k, now), Reissue(k, next, expiresAt)]) == Rotated(x, token, now, next, expiresAt)
  {
    var k := |x.refreshes|;
    RunAppends(x, [], Lookup(token));
    RunAppends(x, [Lookup(token)], Consume(k, now));
    RunAppends(x, [Lookup(token), Consume(k, now)], Reissue(k, next, expiresAt));
    assert [] + [Lookup(token)] == [Lookup(token)] && [Lookup(token)] + [Consume(k, now)] == [Lookup(token), Consume(k, now)];
    assert [Lookup(token), Consume(k, now)] + [Reissue(k, next, expiresAt)]
        == [Lookup(token), Consume(k, now), Reissue(k, next, expiresAt)];
  }

  lemma LiveRotates(x: Store, i: nat, token: Token, now: int, next: Token, expiresAt: int)
    requires Inv(x) && IsLiveAt(x, i, token, now) && Fresh(x.sessions, next)
    ensures Rotated(x, token, now, next, expiresAt).sessions
            == x.sessions[i := x.sessions[i].(revoked := true)] + [Session(x.sessions[i].user, next, expiresAt, false)]
  {
    var k := |x.refreshes|;
    TokenIsFound(x, token, i);
    var looked := Step(x, Lookup(token));
    assert looked.refreshes[k] == Looked(i);
    var redeemed := Step(looked, Consume(k, now));
    assert redeemed.refreshes[k] == Redeemed(i) && redeemed.sessions == x.sessions[i := x.sessions[i].(revoked := true)];
  }

  lemma DeadDoesNotRotate(x: Store, token: Token, now: int, next: Token, expiresAt: int)
    requires Inv(x) && forall i: nat :: i < |x.sessions| ==> !IsLiveAt(x, i, token, now)
    ensures Rotated(x, token, now, next, expiresAt).sessions == x.sessions
  {
    var k := |x.refreshes|;
    var looked := Step(x, Lookup(token));
    var redeemed := Step(looked, Consume(k, now));
    var found := Find(x.sessions, token, 0);
    if found.Some? { assert !IsLiveAt(x, found.value, token, now); }
    assert redeemed.refreshes[k] == Refused && redeemed.sessions == x.sessions;
  }

  /**
   * A refresh rotates: with nothing in between, a token whose session is live is exchanged for one new session of the same
   * user and its own is revoked; any other token gets nothing and changes nothing.
   */
  lemma RefreshRotates(x: Store, events: seq<Event>, token: Token, now: int, next: Token, expiresAt: int)
    requires x == Run(EMPTY, events)
    ensures var k := |x.refreshes|;
            var y := Run(x, [Lookup(token), Consume(k, now), Reissue(k, next, expiresAt)]);
            && (Fresh(x.sessions, next) ==>
                  forall i: nat :: i < |x.sessions| && IsLiveAt(x, i, token, now) ==>
                    y.sessions == x.sessions[i := x.sessions[i].(revoked := true)] + [Session(x.sessions[i].user, next, expiresAt, false)])
            && ((forall i: nat :: i < |x.sessions| ==> !IsLiveAt(x, i, token, now)) ==> y.sessions == x.sessions)
  {
    EmptyIsSound();
    RunKeepsInv(EMPTY, events);
    RotatedIsRun(x, token, now, next, expiresAt);
    if Fresh(x.sessions, next) {
      forall i: nat | i < |x.sessions| && IsLiveAt(x, i, token, now)
        ensures Rotated(x, token, now, next, expiresAt).sessions
                == x.sessions[i := x.sessions[i].(revoked := true)] + [Session(x.sessions[i].user, next, expiresAt, false)]
      {
        LiveRotates(x, i, token, now, next, expiresAt);
      }
    }
    if forall i: nat :: i < |x.sessions| ==> !IsLiveAt(x, i, token, now) { DeadDoesNotRotate(x, token, now, next, expiresAt); }
  }

  /** The session table of the token service. `script` is what everybody else does whenever a call waits. */
  class TokenService {
    var sessions: seq<Session>
    var refreshes: seq<Refresh>
    var logins: seq<UserId>
    var script: seq<seq<Event>>
    ghost var trace: seq<Event>

    function Snapshot(): Store
      reads this
    {
      Store(sessions, refreshes, logins)
    }

    /** The tables are what the recorded steps make of empty ones. */
    ghost predicate Valid()
      reads this
    {
      Snapshot() == Run(EMPTY, trace)
    }

    lemma Sound(user: UserId)
      requires Valid()
      ensures Inv(Snapshot()) && Doors(Snapshot(), user) <= LoginsOf(logins, user)
    {
      EmptyIsSound();
      RunKeepsInv(EMPTY, trace);
      SessionsAreConserved(trace, user);
    }

    constructor (script: seq<seq<Event>>)
      ensures Valid() && Snapshot() == EMPTY
    {
      sessions, refreshes, logins := [], [], [];
      this.script, trace := script, [];
    }

    method Write(x: Store, ghost e: Event)
      requires Valid() && x == Step(Snapshot(), e)
      modifies this
      ensures Valid() && Snapshot() == x && script == old(script) && trace == old(trace) + [e]
    {
      RunAppends(EMPTY, trace, e);
      trace := trace + [e];
      sessions, refreshes, logins := x.sessions, x.refreshes, x.logins;
    }

    /** Waiting for the database; the refresh `me` stays where it is, and sessions only get revoked. */
    method Await(me: nat)
      requires Valid() && me < |refreshes|
      modifies this
      ensures Valid() && me < |refreshes| && refreshes[me] == old(refreshes)[me]
      ensures |old(sessions)| <= |sessions|
      ensures forall i :: 0 <= i < |old(sessions)| ==> sessions[i] == old(sessions)[i].(revoked := sessions[i].revoked)
    {
      var events := if script == [] then [] else script[0];
      script := if script == [] then [] else script[1..];
      for k := 0 to |events|
        invariant Valid() && me < |refreshes| && refreshes[me] == old(refreshes)[me]
        invariant |old(sessions)| <= |sessions|
        invariant forall i :: 0 <= i < |old(sessions)| ==> sessions[i] == old(sessions)[i].(revoked := sessions[i].revoked)
      {
        if NotOf(events[k], me) {
          ghost var before := Snapshot();
          forall i: nat | i < |before.sessions|
            ensures i < |Step(before, events[k]).sessions|
            ensures Step(before, events[k]).sessions[i] == before.sessions[i].(revoked := Step(before, events[k]).sessions[i].revoked)
          {
            StepKeepsRevoked(before, events[k], i);
          }
          Write(Step(Snapshot(), events[k]), events[k]);
        }
      }
    }

    /** A new session for somebody who has just logged in or verified, good for that many days. */
    method Issue(user: UserId, token: Token, now: int, ttlDays: nat)
      requires Valid() && Fresh(sessions, token)
      modifies this
      ensures Valid() && sessions == old(sessions) + [Session(user, token, now + 24 * 60 * 60 * 1_000 * ttlDays, false)]
      ensures logins == old(logins) + [user] && refreshes == old(refreshes)
    {
      var expiresAt := now + ttlDays * 86_400 * 1_000;
      Write(Snapshot().(sessions := sessions + [Session(user, token, expiresAt, false)], logins := logins + [user]),
            LogIn(user, token, expiresAt));
    }

    /** The same for a refresh that has redeemed its session: a new one for the session's user. */
    method Reissue(me: nat, token: Token, now: int, ttlDays: nat)
      requires Valid() && me < |refreshes| && refreshes[me].Redeemed? && Fresh(sessions, token)
      modifies this
      ensures Valid() && logins == old(logins)
      ensures old(refreshes)[me].session < |old(sessions)| && refreshes == old(refreshes)[me := Renewed(old(refreshes)[me].session)]
      ensures sessions == old(sessions) + [Session(old(sessions)[old(refreshes)[me].session].user, token,
                                                   now + 24 * 60 * 60 * 1_000 * ttlDays, false)]
    {
      Sound(0);
      assert Names(refreshes[me], |sessions|);
      var i, expiresAt := refreshes[me].session, now + ttlDays * 86_400 * 1_000;
      Write(Snapshot().(refreshes := refreshes[me := Renewed(i)], sessions := sessions + [Session(sessions[i].user, token, expiresAt, false)]),
            Event.Reissue(me, token, expiresAt));
    }

    /**
     * Validates and revokes a refresh token: exactly when in `found`, the store under its session's lock, the session is
     * live. Of all calls that race with the same token, only one is ever given its session.
     */
    method ConsumeSession(token: Token, now: int) returns (session: Option<nat>, me: nat, ghost found: Store)
      requires Valid()
      modifies this
      ensures Valid() && me < |refreshes|
      ensures session.Some? <==> exists i: nat :: i < |found.sessions| && IsLiveAt(found, i, token, now)
      ensures session.None? ==> refreshes[me] == Refused && sessions == found.sessions
      ensures session.Some? ==>
                && IsLiveAt(found, session.value, token, now)
                && sessions == found.sessions[session.value := found.sessions[session.value].(revoked := true)]
                && refreshes[me] == Redeemed(session.value) && Redemptions(refreshes, session.value) == 1
    {
      me, found := |refreshes|, Snapshot();
      var known := Find(sessions, token, 0);
      Write(Snapshot().(refreshes := refreshes + [if known.Some? then Looked(known.value) else Refused]), Lookup(token));
      if known.None? { return None, me, found; }
      var i := known.value;
      Await(me);
      found := Snapshot();
      Sound(0);
      if sessions[i].revoked || sessions[i].expiresAt <= now {
        Write(Snapshot().(refreshes := refreshes[me := Refused]), Consume(me, now));
        return None, me, found;
      }
      assert IsLiveAt(found, i, token, now);
      Write(Snapshot().(refreshes := refreshes[me := Redeemed(i)], sessions := sessions[i := sessions[i].(revoked := true)]),
            Consume(me, now));
      Sound(0);
      SpentOnce(refreshes, me, i);
      return Some(i), me, found;
    }

    method RevokeByToken(token: Token)
      requires Valid()
      modifies this
      ensures Valid() && |sessions| == |old(sessions)| && refreshes == old(refreshes) && logins == old(logins)
      ensures forall i :: 0 <= i < |sessions| ==>
                sessions[i] == if old(sessions)[i].token == token then old(sessions)[i].(revoked := true) else old(sessions)[i]
    {
      Write(Snapshot().(sessions := RevokeToken(sessions, token)), Event.RevokeByToken(token));
    }

    method RevokeAllForUser(user: UserId)
      requires Valid()
      modifies this
      ensures Valid() && Live(sessions, user) == 0 && refreshes == old(refreshes) && logins == old(logins)
      ensures |sessions| == |old(sessions)|
      ensures forall i :: 0 <= i < |sessions| ==>
                sessions[i] == if old(sessions)[i].user == user then old(sessions)[i].(revoked := true) else old(sessions)[i]
    {
      RevokedUserLives(sessions, user, user);
      Write(Snapshot().(sessions := RevokeUser(sessions, user)), RevokeAll(user));
    }
  }
}

/**
 Refresh tokens on the server.  A token carries its user and, in whole seconds, when it was issued
 and when it expires; signing and hashing are injective, so a token stands for its own hash, and two
 tokens issued to one user within the same second are one and the same.  Runs are serial: the check
 and the rotation of one refresh are not interleaved with another's.
 */
module AuthTokens {
  import opened Options
  import opened Calendar

  type UserId = nat

  // RefreshTokenTTL
  const TTL: Time := 7 * DAY

  datatype Token = Token(user: UserId, issued: int, expires: int)

  datatype Row = Row(user: UserId, token: Token, expiresAt: Time, revoked: bool)

  datatype Sessions = Sessions(clock: Time, rows: seq<Row>)

  // GenerateRefreshToken: numeric dates drop the fraction of a second.
  function Generate(user: UserId, now: Time): Token {
    Token(user, now / SECOND, (now + TTL) / SECOND)
  }

  function NewRow(token: Token): Row {
    Row(token.user, token, token.expires * SECOND, false)
  }

  predicate Live(r: Row, now: Time) {
    !r.revoked && r.expiresAt > now
  }

  predicate Carries(r: Row, token: Token) {
    r.user == token.user && r.token == token
  }

  // The token has not expired and some live row carries it.
  predicate Accepted(s: Sessions, token: Token) {
    && s.clock < token.expires * SECOND
    && exists i :: 0 <= i < |s.rows| && Carries(s.rows[i], token) && Live(s.rows[i], s.clock)
  }

  function Revoke(rows: seq<Row>, token: Token): seq<Row> {
    seq(|rows|, i requires 0 <= i < |rows| => if Carries(rows[i], token) then rows[i].(revoked := true) else rows[i])
  }

  // Registration and login both end by storing a fresh token.
  function LoginTx(s: Sessions, user: UserId): Sessions {
    s.(rows := s.rows + [NewRow(Generate(user, s.clock))])
  }

  function RefreshTx(s: Sessions, token: Token): Sessions {
    if !Accepted(s, token) then s
    else s.(rows := Revoke(s.rows, token) + [NewRow(Generate(token.user, s.clock))])
  }

  class AuthService {
    var clock: Time
    var rows: seq<Row>

    function State(): Sessions
      reads this
    {
      Sessions(clock, rows)
    }

    method Login(user: UserId) returns (token: Token)
      modifies this`rows
      ensures State() == LoginTx(old(State()), user)
      ensures token == Generate(user, clock)
    {
      token := Generate(user, clock);
      rows := rows + [NewRow(token)];
    }

    // Check, revoke every unrevoked row of the token, insert the row of the new one.
    method Refresh(token: Token) returns (renewed: Option<Token>)
      modifies this`rows
      ensures State() == RefreshTx(old(State()), token)
      ensures renewed == if Accepted(old(State()), token) then Some(Generate(token.user, clock)) else None
    {
      if clock >= token.expires * SECOND {
        return None;
      }
      var known := exists i :: 0 <= i < |rows| && Carries(rows[i], token) && Live(rows[i], clock);
      if !known {
        return None;
      }
      var next := Generate(token.user, clock);
      rows := seq(|rows|, i requires 0 <= i < |rows| reads this =>
        if rows[i].user == token.user && rows[i].token == token && !rows[i].revoked
        then rows[i].(revoked := true) else rows[i]);
      rows := rows + [NewRow(next)];
      assert rows == RefreshTx(old(State()), token).rows;
      return Some(next);
    }
  }

  // ----- Runs -----

  datatype Event = Tick(elapsed: nat) | Login(user: UserId) | Refresh(token: Token)

  function Apply(s: Sessions, e: Event): Sessions {
    match e
    case Tick(elapsed) => s.(clock := s.clock + elapsed)
    case Login(user) => LoginTx(s, user)
    case Refresh(token) => RefreshTx(s, token)
  }

  function Run(s: Sessions, es: seq<Event>): Sessions
    decreases es
  {
    if es == [] then s else Run(Apply(s, es[0]), es[1..])
  }

  // No row of the token can become live any more.
  ghost predicate Dead(s: Sessions, token: Token) {
    && s.clock / SECOND > token.issued
    && forall i :: 0 <= i < |s.rows| && Carries(s.rows[i], token) ==> s.rows[i].revoked
  }

  lemma DeadStep(s: Sessions, e: Event, token: Token)
    requires Dead(s, token)
    ensures Dead(Apply(s, e), token)
  {
    if e.Tick? {
      LaterSecond(s.clock, e.elapsed);
    }
  }

  lemma LaterSecond(t: Time, elapsed: nat)
    ensures t / SECOND <= (t + elapsed) / SECOND
  {
  }

  lemma {:induction false} DeadForever(s: Sessions, es: seq<Event>, token: Token)
    requires Dead(s, token)
    ensures Dead(Run(s, es), token)
    decreases es
  {
    if es != [] {
      DeadStep(s, es[0], token);
      DeadForever(Apply(s, es[0]), es[1..], token);
    }
  }

  // A token redeemed in a later second than it was issued in is never accepted again, however many
  // rows carry it and whatever happens afterwards.
  lemma RedeemedForever(s: Sessions, token: Token, es: seq<Event>)
    requires Accepted(s, token) && token.issued < s.clock / SECOND
    ensures !Accepted(Run(RefreshTx(s, token), es), token)
  {
    assert Dead(RefreshTx(s, token), token);
    DeadForever(RefreshTx(s, token), es, token);
  }

  // The rows of a run hold tokens the server issued, in this second or before.
  ghost predicate Issued(s: Sessions) {
    forall i :: 0 <= i < |s.rows| ==> IssuedBy(s.rows[i], s.clock)
  }

  ghost predicate IssuedBy(r: Row, now: Time) {
    && r.token.issued <= now / SECOND && r.token.expires == r.token.issued + TTL / SECOND
    && r.user == r.token.user && r.expiresAt == r.token.expires * SECOND
  }

  lemma GenerateExpires(user: UserId, now: Time)
    ensures Generate(user, now).expires == now / SECOND + TTL / SECOND
    ensures Generate(user, now).expires * SECOND > now
  {
    assert TTL == 604800 * SECOND;
  }

  lemma IssuedStep(s: Sessions, e: Event)
    requires Issued(s)
    ensures Issued(Apply(s, e))
  {
    match e
    case Tick(elapsed) => LaterSecond(s.clock, elapsed);
    case Login(user) => GenerateExpires(user, s.clock);
    case Refresh(token) => GenerateExpires(token.user, s.clock);
  }

  lemma {:induction false} IssuedRun(s: Sessions, es: seq<Event>)
    requires Issued(s)
    ensures Issued(Run(s, es))
    decreases es
  {
    if es != [] {
      IssuedStep(s, es[0]);
      IssuedRun(Apply(s, es[0]), es[1..]);
    }
  }

  // The later second matters: a redeemed token is still good right afterwards exactly when it was
  // issued within the same second, because the rotation then produces the same token again.
  lemma StillGoodIffSameSecond(start: Time, es: seq<Event>, token: Token)
    requires Accepted(Run(Sessions(start, []), es), token)
    ensures var s := Run(Sessions(start, []), es);
      Accepted(RefreshTx(s, token), token) <==> token.issued == s.clock / SECOND
  {
    IssuedRun(Sessions(start, []), es);
    var s := Run(Sessions(start, []), es);
    var after := RefreshTx(s, token);
    var i :| 0 <= i < |s.rows| && Carries(s.rows[i], token) && Live(s.rows[i], s.clock);
    assert IssuedBy(s.rows[i], s.clock);
    GenerateExpires(token.user, s.clock);
    if token.issued == s.clock / SECOND {
      assert Generate(token.user, s.clock) == token;
      assert Carries(after.rows[|s.rows|], token) && Live(after.rows[|s.rows|], after.clock);
    } else {
      assert Dead(after, token);
    }
  }

  // ----- What a token is good for, with the amounts written out -----

  // A token carries whole seconds, and it and its row expire seven days after its issue.
  lemma TokenOf(user: UserId, now: Time)
    ensures var token := Generate(user, now);
      && token.user == user && 1_000_000 * token.issued <= now < 1_000_000 * (token.issued + 1)
      && token.expires == token.issued + 604_800
      && NewRow(token) == Row(user, token, 1_000_000 * token.expires, false)
  {
    GenerateExpires(user, now);
  }

  // A refresh takes effect exactly on a token that has not expired and has a row of its user that is
  // neither revoked nor expired; it revokes the rows of that token and adds the row of a new one.
  lemma RefreshLaw(s: Sessions, token: Token)
    ensures var after := Apply(s, Refresh(token));
      && (after != s <==>
            && s.clock < 1_000_000 * token.expires
            && exists i :: 0 <= i < |s.rows| && s.rows[i].user == token.user && s.rows[i].token == token
                           && !s.rows[i].revoked && s.clock < s.rows[i].expiresAt)
      && (after != s ==>
            && after.clock == s.clock && |after.rows| == |s.rows| + 1
            && after.rows[|s.rows|] == NewRow(Generate(token.user, s.clock))
            && forall i :: 0 <= i < |s.rows| ==>
                 after.rows[i] == s.rows[i].(revoked := after.rows[i].revoked)
                 && (after.rows[i].revoked <==>
                       s.rows[i].revoked || (s.rows[i].user == token.user && s.rows[i].token == token)))
  {
    if Accepted(s, token) {
      var i :| 0 <= i < |s.rows| && Carries(s.rows[i], token) && Live(s.rows[i], s.clock);
      assert s.rows[i].user == token.user && s.rows[i].token == token;
      assert |Apply(s, Refresh(token)).rows| == |s.rows| + 1;
    } else {
      assert forall i :: 0 <= i < |s.rows| && s.rows[i].user == token.user && s.rows[i].token == token ==>
          Carries(s.rows[i], token);
    }
  }

  // The row of a token that nobody redeems stays as it is.
  lemma {:induction false} RowStays(s: Sessions, es: seq<Event>, i: nat)
    requires i < |s.rows| && s.rows[i].user == s.rows[i].token.user && Refresh(s.rows[i].token) !in es
    ensures i < |Run(s, es).rows| && Run(s, es).rows[i] == s.rows[i]
    decreases es
  {
    if es != [] {
      assert es[0] in es && forall e :: e in es[1..] ==> e in es;
      RowStaysOnce(s, es[0], i);
      RowStays(Apply(s, es[0]), es[1..], i);
    }
  }

  lemma RowStaysOnce(s: Sessions, e: Event, i: nat)
    requires i < |s.rows| && e != Refresh(s.rows[i].token)
    ensures i < |Apply(s, e).rows| && Apply(s, e).rows[i] == s.rows[i]
  {
  }

  // A token from a login is good for seven days from the second it was issued in, whatever happens
  // meanwhile, as long as it is not redeemed.
  lemma FreshTokenLasts(s: Sessions, user: UserId, es: seq<Event>)
    requires Refresh(Generate(user, s.clock)) !in es
    ensures Accepted(Run(Apply(s, Login(user)), es), Generate(user, s.clock))
       <==> Run(Apply(s, Login(user)), es).clock < 1_000_000 * (s.clock / 1_000_000 + 604_800)
  {
    TokenOf(user, s.clock);
    RowStays(Apply(s, Login(user)), es, |s.rows|);
    var later := Run(Apply(s, Login(user)), es);
    assert later.rows[|s.rows|] == NewRow(Generate(user, s.clock));
  }

  // ----- How many sessions a user has -----

  function LiveRows(rows: seq<Row>, user: UserId, now: Time): nat {
    if rows == [] then 0
    else LiveRows(rows[..|rows| - 1], user, now)
         + if rows[|rows| - 1].user == user && Live(rows[|rows| - 1], now) then 1 else 0
  }

  // The live rows that carry one token.
  function LiveCopies(rows: seq<Row>, token: Token, now: Time): nat {
    if rows == [] then 0
    else LiveCopies(rows[..|rows| - 1], token, now)
         + if Carries(rows[|rows| - 1], token) && Live(rows[|rows| - 1], now) then 1 else 0
  }

  lemma {:induction false} RevokeCount(rows: seq<Row>, token: Token, user: UserId, now: Time)
    ensures LiveRows(Revoke(rows, token), user, now)
         == LiveRows(rows, user, now) - if user == token.user then LiveCopies(rows, token, now) else 0
    decreases rows
  {
    if rows != [] {
      RevokeCount(rows[..|rows| - 1], token, user, now);
      assert Revoke(rows, token)[..|rows| - 1] == Revoke(rows[..|rows| - 1], token);
    }
  }

  lemma {:induction false} AcceptedHasCopy(rows: seq<Row>, token: Token, now: Time, i: nat)
    requires i < |rows| && Carries(rows[i], token) && Live(rows[i], now)
    ensures LiveCopies(rows, token, now) >= 1
    decreases rows
  {
    if i < |rows| - 1 {
      AcceptedHasCopy(rows[..|rows| - 1], token, now, i);
    }
  }

  // A refresh never leaves a user with more live rows than before: it replaces all live copies of the
  // token by one new row, so the number stays the same exactly when there was one copy.
  lemma RefreshKeepsCount(s: Sessions, token: Token, user: UserId)
    requires Accepted(s, token)
    ensures var before, after := LiveRows(s.rows, user, s.clock), LiveRows(RefreshTx(s, token).rows, user, s.clock);
      var copies := LiveCopies(s.rows, token, s.clock);
      && copies >= 1
      && after == if user == token.user then before - copies + 1 else before
  {
    var i :| 0 <= i < |s.rows| && Carries(s.rows[i], token) && Live(s.rows[i], s.clock);
    AcceptedHasCopy(s.rows, token, s.clock, i);
    RevokeCount(s.rows, token, user, s.clock);
    GenerateExpires(token.user, s.clock);
    var rotated := Revoke(s.rows, token);
    assert RefreshTx(s, token).rows[..|rotated|] == rotated;
  }
}

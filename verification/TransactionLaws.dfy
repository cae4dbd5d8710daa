/**
 What each transaction does to the tables, row by row and with the amounts written out: when it
 changes anything, what it changes, and that everything else stays.  Nothing here is stated through
 the functions that Tables and Store are written with, so that these are two accounts of the same
 transactions; times are in microseconds.
 */
module TransactionLaws {
  import opened Options
  import opened Requests
  import opened Calendar
  import opened Tables

  const ONE_HOUR: int := 3_600_000_000
  const SEVEN_DAYS: int := 604_800_000_000

  // ----- Accepting -----

  // The request is pending, and the caller owns its status, which is open and has not expired.
  predicate Acceptable(db: Db, status: Id, requester: UserId, caller: UserId) {
    && (status, requester) in db.requests && db.requests[(status, requester)].Pending?
    && status in db.statuses
    && var row := db.statuses[status];
       row.owner == caller && row.active && db.clock < row.expiresAt
  }

  lemma AcceptLaw(db: Db, status: Id, requester: UserId, caller: UserId)
    ensures var after := Apply(db, Accept(status, requester, caller));
      && (after != db <==> Acceptable(db, status, requester, caller))
      && (after != db ==>
            && after.requests.Keys == db.requests.Keys && after.requests[(status, requester)] == Accepted
            && (forall k :: k in db.requests && k.0 == status && k.1 != requester ==>
                  after.requests[k] == if db.requests[k].Pending? then Rejected else db.requests[k])
            && (forall k :: k in db.requests && k.0 != status ==> after.requests[k] == db.requests[k])
            && after.statuses == db.statuses[status := db.statuses[status].(active := false)])
      && after == db.(requests := after.requests, statuses := after.statuses)
  {
    var after := Apply(db, Accept(status, requester, caller));
    if Acceptable(db, status, requester, caller) {
      assert after.requests[(status, requester)] != db.requests[(status, requester)];
    }
  }

  // So it is at the end of any history: an acceptance takes effect exactly on a pending request, for
  // the owner of the status, while the status is open and its time has not run out.
  lemma AcceptTakesEffect(distance: (Pos, Pos) -> real, start: Time, es: seq<Event>,
                          status: Id, requester: UserId, caller: UserId)
    ensures var before := History(distance, start, es);
      var after := History(distance, start, es + [Accept(status, requester, caller)]);
      && (after != before <==> Acceptable(before, status, requester, caller))
      && (after != before ==> (status, requester) in after.requests && after.requests[(status, requester)] == Accepted)
  {
    RunSnoc(Empty(distance, start), es, Accept(status, requester, caller));
    AcceptLaw(History(distance, start, es), status, requester, caller);
  }

  lemma RunSnoc(db: Db, es: seq<Event>, e: Event)
    ensures Run(db, es + [e]) == Apply(Run(db, es), e)
  {
    assert (es + [e])[..|es|] == es;
  }

  // Whoever joins an open status can be accepted by its owner until its time runs out, by nobody else
  // and no longer.
  lemma JoinedCanBeAccepted(db: Db, status: Id, requester: UserId, elapsed: nat, caller: UserId)
    requires status in db.statuses && db.statuses[status].active && requester in db.users
    ensures var waiting := Apply(Apply(db, Join(status, requester)), Tick(elapsed));
      var after := Apply(waiting, Accept(status, requester, caller));
      && (status, requester) in after.requests && status in after.statuses
      && (after.requests[(status, requester)] == Accepted
          <==> caller == db.statuses[status].owner && db.clock + elapsed < db.statuses[status].expiresAt)
      && (after.requests[(status, requester)] == Accepted <==> !after.statuses[status].active)
  {
    var waiting := Apply(Apply(db, Join(status, requester)), Tick(elapsed));
    AcceptLaw(waiting, status, requester, caller);
  }

  // ----- Statuses and requests -----

  lemma JoinLaw(db: Db, status: Id, requester: UserId)
    ensures Apply(db, Join(status, requester)) ==
      if status in db.statuses && requester in db.users
      then db.(requests := db.requests[(status, requester) := Pending]) else db
  {
  }

  lemma CreateStatusLaw(db: Db, owner: UserId, pos: Pos, hours: int)
    ensures var after := Apply(db, CreateStatus(owner, pos, hours));
      && (owner !in db.users ==> after == db)
      && (owner in db.users ==>
            && after.statuses.Keys == db.statuses.Keys + {db.nextId}
            && (forall id :: id in db.statuses && id != db.nextId ==> after.statuses[id] == db.statuses[id])
            && after == db.(statuses := after.statuses, nextId := db.nextId + 1)
            && var row := after.statuses[db.nextId];
               && row.owner == owner && row.pos == pos && row.active && row.createdAt == db.clock
               && (1 <= hours <= 24 ==> row.expiresAt == db.clock + hours * ONE_HOUR)
               && (hours < 1 || 24 < hours ==> row.expiresAt == db.clock + 24 * ONE_HOUR))
  {
  }

  // ----- Blocking -----

  // The request joins the two users: one of them made it for a status of the other.
  predicate Between(db: Db, k: RequestKey, a: UserId, b: UserId) {
    && k.0 in db.statuses
    && ((db.statuses[k.0].owner == a && k.1 == b) || (db.statuses[k.0].owner == b && k.1 == a))
  }

  // Exactly the pending requests between the two are rejected.
  lemma BlockRequestsLaw(db: Db, a: UserId, b: UserId)
    requires a != b && a in db.users && b in db.users
    ensures var after := Apply(db, Block(a, b));
      && after.requests.Keys == db.requests.Keys
      && forall k :: k in db.requests ==>
           after.requests[k] == if db.requests[k].Pending? && Between(db, k, a, b) then Rejected else db.requests[k]
  {
  }

  // Exactly the statuses with a rejected request between the two are closed.
  lemma BlockStatusesLaw(db: Db, a: UserId, b: UserId, id: Id)
    requires a != b && a in db.users && b in db.users
    ensures var after := Apply(db, Block(a, b));
      && after.statuses.Keys == db.statuses.Keys
      && (id in db.statuses ==>
            && after.statuses[id] == db.statuses[id].(active := after.statuses[id].active)
            && (after.statuses[id].active <==>
                  && db.statuses[id].active
                  && !exists k ::
                       k in after.requests && k.0 == id && Between(db, k, a, b) && after.requests[k].Rejected?))
  {
    var after := Apply(db, Block(a, b));
    if id in db.statuses {
      assert (id, a) in after.requests && after.requests[(id, a)].Rejected? && db.statuses[id].owner == b ==>
        Between(db, (id, a), a, b);
      assert (id, b) in after.requests && after.requests[(id, b)].Rejected? && db.statuses[id].owner == a ==>
        Between(db, (id, b), a, b);
    }
  }

  // The match of the two goes with its messages, the block is recorded, and nothing else changes.
  lemma BlockRestLaw(db: Db, a: UserId, b: UserId)
    requires a != b && a in db.users && b in db.users
    ensures var after := Apply(db, Block(a, b));
      && after.blocks == db.blocks + {(a, b)}
      && (forall m :: m in after.matches <==>
            m in db.matches && {db.matches[m].user1, db.matches[m].user2} != {a, b})
      && (forall m :: m in after.matches ==> after.matches[m] == db.matches[m])
      && (forall i :: i in after.messages <==>
            i in db.messages && (db.messages[i].matchId in db.matches ==> db.messages[i].matchId in after.matches))
      && (forall i :: i in after.messages ==> after.messages[i] == db.messages[i])
      && after == db.(blocks := after.blocks, matches := after.matches, messages := after.messages,
                      requests := after.requests, statuses := after.statuses)
  {
    forall m | m in db.matches
      ensures {db.matches[m].user1, db.matches[m].user2} == {a, b} <==> Joins(db.matches[m], a, b)
    {
      SamePair(db.matches[m].user1, db.matches[m].user2, a, b);
    }
  }

  lemma SamePair(x: UserId, y: UserId, a: UserId, b: UserId)
    requires a != b
    ensures {x, y} == {a, b} <==> (x == a && y == b) || (x == b && y == a)
  {
    if {x, y} == {a, b} {
      assert x in {a, b} && y in {a, b} && a in {x, y} && b in {x, y};
    }
  }

  // A block of oneself, or with someone who does not exist, does nothing.
  lemma BlockNeedsTwo(db: Db, a: UserId, b: UserId)
    ensures a == b || a !in db.users || b !in db.users ==> Apply(db, Block(a, b)) == db
  {
  }

  // ----- Messages -----

  predicate IsPremium(db: Db, u: UserId) {
    && u in db.users && db.users[u].isPremium
    && match db.users[u].premiumUntil
       case Some(until) => db.clock < until
       case None => false
  }

  // A message is sent exactly by a user of an existing match, as soon as either of the two has premium.
  lemma SendLaw(db: Db, sender: UserId, matchId: Id)
    ensures var after := Apply(db, SendDateRequest(sender, matchId));
      && (after != db <==>
            && matchId in db.matches
            && var m := db.matches[matchId];
               && sender in {m.user1, m.user2} && m.user1 in db.users && m.user2 in db.users
               && (IsPremium(db, m.user1) || IsPremium(db, m.user2)))
      && (after != db ==>
            after == db.(messages := db.messages[db.nextId := Message(matchId, sender)], nextId := db.nextId + 1))
  {
  }

  // ----- Accounts -----

  lemma RegisterLaw(db: Db, u: UserId, gender: string)
    ensures Apply(db, Register(u, gender)) ==
      if u in db.users then db
      else db.(users := db.users[u := Account(true, Some(db.clock + SEVEN_DAYS), 0, Some(db.clock), false)],
               profiles := db.profiles[u := Profile(gender, None, None)])
  {
  }

  // Five calls in a month, counted from the last reset; a call that finds a reset due starts anew.
  predicate MonthOver(a: Account, now: Time) {
    match a.lastReset
    case Some(reset) => AddMonth(reset) < now
    case None => true
  }

  predicate CallCounts(db: Db, u: UserId) {
    && u in db.users
    && (db.users[u].premiumUntil.None? || db.users[u].premiumUntil.value <= db.clock)
    && (MonthOver(db.users[u], db.clock) || db.users[u].callCount < 5)
  }

  // A call leaves a trace exactly when it is one that counts.
  lemma CallLaw(db: Db, u: UserId)
    ensures CountedCall(db, u) <==> CallCounts(db, u)
    ensures !CallCounts(db, u) ==> Apply(db, Call(u)) == db
    ensures CallCounts(db, u) ==>
      var a, over := db.users[u], MonthOver(db.users[u], db.clock);
      Apply(db, Call(u)) == db.(users := db.users[u :=
        Account(false, a.premiumUntil, if over then 1 else a.callCount + 1,
                if over then Some(db.clock) else a.lastReset, a.shadowbanned)])
  {
  }

  // How much of the month's five calls is used up.
  function Used(db: Db, u: UserId): nat
    requires u in db.users
  {
    if MonthOver(db.users[u], db.clock) then 0 else db.users[u].callCount
  }

  // A user without premium, with a counter as the calls leave it.
  ghost predicate OnQuota(db: Db, u: UserId) {
    && u in db.users && db.users[u].callCount <= 5
    && (db.users[u].premiumUntil.None? || db.users[u].premiumUntil.value <= db.clock)
  }

  lemma OneCall(db: Db, u: UserId)
    requires OnQuota(db, u)
    ensures var after := Apply(db, Call(u));
      && OnQuota(after, u) && (after != db <==> Used(db, u) < 5)
      && Used(after, u) == if Used(db, u) < 5 then Used(db, u) + 1 else Used(db, u)
  {
    CallLaw(db, u);
    AddMonthBounds(db.clock);
  }

  // Of n calls made at once, those that leave a trace, and so are let through.
  ghost function LetThrough(db: Db, u: UserId, n: nat): nat
    decreases n
  {
    if n == 0 then 0
    else
      var after := Apply(db, Call(u));
      (if after != db then 1 else 0) + LetThrough(after, u, n - 1)
  }

  lemma FirstCall(db: Db, u: UserId, n: nat) returns (after: Db)
    requires OnQuota(db, u) && n > 0
    ensures OnQuota(after, u)
    ensures Used(after, u) == if Used(db, u) < 5 then Used(db, u) + 1 else Used(db, u)
    ensures LetThrough(db, u, n) == (if Used(db, u) < 5 then 1 else 0) + LetThrough(after, u, n - 1)
  {
    OneCall(db, u);
    after := Apply(db, Call(u));
  }

  // Of any number of calls made at once by a user without premium, as many are let through as the
  // month has left of its five.
  lemma {:induction false} FiveCallsPass(db: Db, u: UserId, n: nat)
    requires OnQuota(db, u)
    ensures LetThrough(db, u, n) == if n <= 5 - Used(db, u) then n else 5 - Used(db, u)
    decreases n
  {
    if n > 0 {
      var after := FirstCall(db, u, n);
      FiveCallsPass(after, u, n - 1);
    }
  }

  // A purchase buys the calendar month that begins at its moment, on top of what is still running.
  lemma PurchaseLaw(db: Db, u: UserId)
    ensures Apply(db, Purchase(u)) ==
      if u !in db.users then db
      else
        var a, month := db.users[u], AddMonth(db.clock);
        var until := (match a.premiumUntil
                      case Some(t) => if db.clock < t then t + (month - db.clock) else month
                      case None => month);
        db.(users := db.users[u := a.(isPremium := true, premiumUntil := Some(until))])
  {
  }

  // A new user has premium for seven days to the microsecond, as the chat gate sees it.
  lemma TrialLasts(db: Db, u: UserId, gender: string, elapsed: nat)
    requires u !in db.users
    ensures IsPremium(Apply(Apply(db, Register(u, gender)), Tick(elapsed)), u) <==> elapsed < SEVEN_DAYS
  {
    RegisterLaw(db, u, gender);
  }

  // ----- Positions -----

  // No faster than 1000 km an hour; no more than 1 km when no time has passed.
  predicate SlowEnough(db: Db, place: Place, pos: Pos) {
    var d := db.distance(place.pos, pos);
    if place.since < db.clock then d * 3_600_000_000.0 <= 1000.0 * (db.clock - place.since) as real else d <= 1.0
  }

  lemma MoveLaw(db: Db, u: UserId, pos: Pos)
    ensures Apply(db, UpdateLocation(u, pos)) ==
      if u !in db.users || u !in db.profiles then db
      else if db.profiles[u].place.None? || SlowEnough(db, db.profiles[u].place.value, pos)
      then db.(profiles := db.profiles[u := db.profiles[u].(place := Some(Place(pos, db.clock)))])
      else db.(users := db.users[u := db.users[u].(shadowbanned := true)])
  {
    if u in db.profiles && db.profiles[u].place.Some? {
      var place := db.profiles[u].place.value;
      SpeedGate(db.distance(place.pos, pos), place.since, db.clock);
    }
  }

  lemma SpeedGate(d: real, since: Time, now: Time)
    ensures since < now ==>
              (d / HoursSince(since, now) <= MAX_SPEED <==> d * 3_600_000_000.0 <= 1000.0 * (now - since) as real)
    ensures now <= since ==> (d / HoursSince(since, now) <= MAX_SPEED <==> d <= 1.0)
  {
    var hours := HoursSince(since, now);
    var speed := d / hours;
    assert d == speed * hours;
    Scaled(speed, hours);
    if since < now {
      assert hours * 3_600_000_000.0 == (now - since) as real;
      assert d * 3_600_000_000.0 == speed * (hours * 3_600_000_000.0);
    }
  }

  lemma Scaled(speed: real, hours: real)
    requires 0.0 < hours
    ensures speed <= 1000.0 <==> speed * hours <= 1000.0 * hours
  {
    if speed > 1000.0 {
      assert (speed - 1000.0) * hours > 0.0;
    } else {
      assert (1000.0 - speed) * hours >= 0.0;
    }
  }
}

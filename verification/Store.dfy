/**
 The database as the services and repositories use it: one field per table, one method per
 transaction, written statement by statement and proved against the transaction's function.  A
 transaction that fails leaves the tables alone.

 Execute runs one event after another and records it in the ghost log.  Valid() says that the tables
 are what the log makes of an empty database, so what is proved about histories holds of the tables
 at any time.
 */
module Store {
  import opened Options
  import opened Requests
  import opened Calendar
  import opened Tables
  import opened Ranking
  import MatchHistory
  import Nearby
  import TransactionLaws

  // An error, no match, or the id of the match between the two users.
  datatype SwipeResult = SwipeFailed | NoMatch | Matched(id: Id)

  class Database {
    var clock: Time
    var nextId: Id
    var users: map<UserId, Account>
    var profiles: map<UserId, Profile>
    var statuses: map<Id, Status>
    var requests: map<RequestKey, RequestState>
    var swipes: map<(UserId, UserId), Action>
    var matches: map<Id, Match>
    var messages: map<Id, Message>
    var blocks: set<(UserId, UserId)>
    const distance: (Pos, Pos) -> real
    ghost const start: Time
    ghost var log: seq<Event>

    function Contents(): Db
      reads this
    {
      Db(clock, nextId, users, profiles, statuses, requests, swipes, matches, messages, blocks, distance)
    }

    ghost predicate Valid()
      reads this
    {
      Contents() == History(distance, start, log)
    }

    constructor (distance: (Pos, Pos) -> real, start: Time)
      ensures Valid() && log == []
      ensures this.distance == distance && this.start == start
    {
      this.clock, this.nextId, this.distance, this.start, this.log := start, 0, distance, start, [];
      users, profiles, statuses, requests := map[], map[], map[], map[];
      swipes, matches, messages, blocks := map[], map[], map[], {};
    }

    // Time passes.
    method Advance(elapsed: nat)
      modifies this
      ensures Contents() == old(Contents()).(clock := old(clock) + elapsed) && log == old(log)
    {
      clock := clock + elapsed;
    }

    // ----- Accounts -----

    // Register: a new account starts with a trial and a fresh call counter.
    method RegisterUser(user: UserId, gender: string) returns (ok: bool)
      modifies this
      ensures Contents() == RegisterTx(old(Contents()), user, gender) && log == old(log)
      ensures ok <==> user !in old(users)
    {
      ok := user !in users;
      if ok {
        var trialExpires := clock + TRIAL;
        users := users[user := Account(true, Some(trialExpires), 0, Some(clock), false)];
        profiles := profiles[user := Profile(gender, None, None)];
      }
    }

    // The call quota check in front of every call route.
    method CheckCallQuota(user: UserId) returns (allowed: bool)
      modifies this
      ensures Contents() == CallTx(old(Contents()), user) && log == old(log)
      ensures allowed <==>
        || TransactionLaws.CallCounts(old(Contents()), user)
        || (user in old(users) && old(users[user]).premiumUntil.Some?
            && old(clock) < old(users[user]).premiumUntil.value)
    {
      if user !in users {
        return false;
      }
      var row := users[user];
      if row.premiumUntil.Some? && row.premiumUntil.value > clock {
        return true;
      }
      var isPremium, callCount, lastReset := row.isPremium, row.callCount, row.lastReset;
      if isPremium {
        isPremium := false;
      }
      var shouldReset := false;
      if lastReset == None {
        shouldReset := true;
      } else {
        var nextReset := AddMonth(lastReset.value);
        if clock > nextReset {
          shouldReset := true;
        }
      }
      if shouldReset {
        callCount := 0;
        lastReset := Some(clock);
      }
      if callCount >= MONTHLY_CALLS {
        return false;
      }
      callCount := callCount + 1;
      users := users[user := row.(isPremium := isPremium, callCount := callCount, lastReset := lastReset)];
      return true;
    }

    // The receipt has been verified: one month from now, on top of premium time still running.
    method ActivateSubscription(user: UserId) returns (ok: bool)
      modifies this
      ensures Contents() == PurchaseTx(old(Contents()), user) && log == old(log)
      ensures ok <==> user in old(users)
    {
      if user !in users {
        return false;
      }
      var purchasedAt := clock;
      var expiresAt := AddMonth(clock);
      var row := users[user];
      var premiumUntil := if row.premiumUntil.Some? && row.premiumUntil.value > clock
                          then row.premiumUntil.value + (expiresAt - purchasedAt)
                          else expiresAt;
      users := users[user := row.(isPremium := true, premiumUntil := Some(premiumUntil))];
      return true;
    }

    method UpdatePosition(user: UserId, pos: Pos) returns (ok: bool)
      modifies this
      ensures Contents() == UpdateLocationTx(old(Contents()), user, pos) && log == old(log)
      ensures ok ==> user in profiles && profiles[user].place == Some(Place(pos, clock))
      ensures !ok ==> profiles == old(profiles)
    {
      if user !in profiles || user !in users {
        return false;
      }
      var previous := profiles[user].place;
      if previous != None {
        var distKm := distance(previous.value.pos, pos);
        var hours := (clock - previous.value.since) as real / HOUR as real;
        if hours <= 0.0 {
          hours := 0.001;
        }
        PositiveHours(previous.value.since, clock);
        var speed := distKm / hours;
        if speed > 1000.0 {
          users := users[user := users[user].(shadowbanned := true)];
          return false;
        }
      }
      profiles := profiles[user := profiles[user].(place := Some(Place(pos, clock)))];
      return true;
    }

    static lemma PositiveHours(since: Time, now: Time)
      ensures (now - since) as real / HOUR as real <= 0.0 <==> now <= since
    {
    }

    // ----- Live statuses -----

    method CreateStatus(owner: UserId, pos: Pos, ttlHours: int) returns (id: Option<Id>)
      modifies this
      ensures Contents() == CreateStatusTx(old(Contents()), owner, pos, ttlHours) && log == old(log)
      ensures id.Some? <==> owner in old(users)
      ensures id.Some? ==> id.value == old(nextId)
    {
      if owner !in users {
        return None;
      }
      var ttl := ttlHours;
      if ttl <= 0 || ttl > 24 {
        ttl := 24;
      }
      id := Some(nextId);
      statuses := statuses[nextId := Status(owner, pos, clock + ttl * HOUR, true, clock)];
      nextId := nextId + 1;
    }

    // INSERT .. ON CONFLICT DO UPDATE: a second request of the same user reopens the first.
    method CreateStatusRequest(status: Id, requester: UserId) returns (ok: bool)
      modifies this
      ensures Contents() == JoinTx(old(Contents()), status, requester) && log == old(log)
      ensures ok <==> status in old(statuses) && requester in old(users)
    {
      ok := status in statuses && requester in users;
      if ok {
        requests := requests[(status, requester) := Pending];
      }
    }

    // Lock and check the request with its status, accept it, reject the others, close the status.
    method AcceptRequestAndCloseStatus(status: Id, requester: UserId, caller: UserId) returns (ok: bool)
      modifies this
      ensures Contents() == AcceptTx(old(Contents()), status, requester, caller) && log == old(log)
      ensures ok <==> TransactionLaws.Acceptable(old(Contents()), status, requester, caller)
    {
      var key := (status, requester);
      if !(key in requests && requests[key] == Pending
           && status in statuses && statuses[status].owner == caller
           && statuses[status].active && statuses[status].expiresAt > clock) {
        return false;
      }
      requests := requests[key := Accepted];
      requests := map k | k in requests ::
        if k.0 == status && k != key && requests[k] == Pending then Rejected else requests[k];
      statuses := statuses[status := statuses[status].(active := false)];
      assert requests == old(AcceptTx(Contents(), status, requester, caller).requests);
      return true;
    }

    method GetNearbyActiveStatuses(viewer: UserId, pos: Pos, radiusKm: real, limit: int) returns (results: seq<Row>)
      ensures results == Nearby.NearbyStatuses(Contents(), viewer, pos, radiusKm, limit)
    {
      var radius := radiusKm;
      if radius <= 0.0 {
        radius := 10.0;
      }
      if radius > 1000.0 {
        radius := 1000.0;
      }
      var max := limit;
      if max <= 0 {
        max := 50;
      }
      var rows := set r | r in Nearby.StatusRows(Contents(), viewer, pos) && r.distance <= radius;
      results := Collect(rows, max);
    }

    // ----- Discovery -----

    method GetNearbyProfiles(self: UserId, radiusKm: real, limit: int) returns (results: seq<Row>)
      ensures results == Nearby.NearbyProfiles(Contents(), self, radiusKm, limit)
    {
      var radius := radiusKm;
      if radius == 0.0 {
        radius := 10.0;
      }
      if radius > 0.0 && radius > 1000.0 {
        radius := 1000.0;
      }
      var max := limit;
      if max <= 0 {
        max := 50;
      }
      var rows := Nearby.ProfileRows(Contents(), self);
      if radius >= 0.0 {
        rows := set r | r in rows && r.distance <= radius;
      }
      results := Collect(rows, max);
    }

    // Upsert the swipe; a like that meets a like makes a match, or finds the one there is.
    method RecordSwipeAndCheckMatch(swiper: UserId, target: UserId, action: Action) returns (result: SwipeResult)
      requires MatchHistory.MatchesOk(Contents())
      modifies this
      ensures Contents() == SwipeTx(old(Contents()), swiper, target, action) && log == old(log)
      ensures result.SwipeFailed? <==> swiper != target && (swiper !in old(users) || target !in old(users))
      ensures result.Matched? <==>
        ValidPair(old(Contents()), swiper, target) && action == Like && old(Likes(Contents(), target, swiper))
      ensures result.Matched? ==> result.id in matches && Joins(matches[result.id], swiper, target)
    {
      if swiper == target {
        return NoMatch;
      }
      if swiper !in users || target !in users {
        return SwipeFailed;
      }
      swipes := swipes[(swiper, target) := action];
      if action != Like {
        return NoMatch;
      }
      var reciprocalLike := (target, swiper) in swipes && swipes[(target, swiper)] == Like;
      if !reciprocalLike {
        return NoMatch;
      }
      var id := InsertOrFindMatch(swiper, target);
      return Matched(id);
    }

    // INSERT .. ON CONFLICT DO NOTHING, and the id of the match that is in the way if there is one.
    method InsertOrFindMatch(a: UserId, b: UserId) returns (id: Id)
      requires MatchHistory.MatchesOk(Contents()) && ValidPair(Contents(), a, b)
      modifies this
      ensures old(HasMatch(Contents(), a, b)) ==> Contents() == old(Contents())
      ensures !old(HasMatch(Contents(), a, b)) ==>
        Contents() == old(Contents()).(matches := old(matches)[old(nextId) := Canonical(a, b)],
                                       nextId := old(nextId) + 1)
      ensures id in matches && Joins(matches[id], a, b) && log == old(log)
    {
      var pair := if a < b then Match(a, b) else Match(b, a);
      if exists m :: m in matches && matches[m] == pair {
        id :| id in matches && matches[id] == pair;
        return;
      }
      assert forall m :: m in matches && Joins(matches[m], a, b) ==> matches[m] == pair;
      id := nextId;
      matches := matches[nextId := pair];
      nextId := nextId + 1;
    }

    // ----- Moderation -----

    // Record the block, delete the matches with their messages, reject the pending requests between
    // the two, and close the statuses those requests were for.
    method BlockUser(blocker: UserId, blocked: UserId) returns (ok: bool)
      modifies this
      ensures Contents() == BlockTx(old(Contents()), blocker, blocked) && log == old(log)
      ensures ok <==> blocker == blocked || ValidPair(old(Contents()), blocker, blocked)
    {
      if blocker == blocked {
        return true;
      }
      if blocker !in users || blocked !in users {
        return false;
      }
      blocks := blocks + {(blocker, blocked)};
      DeleteMatches(blocker, blocked);
      RejectRequests(blocker, blocked);
      CloseStatuses(blocker, blocked);
      return true;
    }

    method DeleteMatches(a: UserId, b: UserId)
      modifies this`matches, this`messages
      ensures matches == Unmatch(old(matches), a, b)
      ensures messages == CascadeMessages(old(messages), old(matches), a, b)
    {
      var deleted := set m | m in matches && (matches[m] == Match(a, b) || matches[m] == Match(b, a));
      matches := matches - deleted;
      messages := map i | i in messages && messages[i].matchId !in deleted :: messages[i];
    }

    method RejectRequests(a: UserId, b: UserId)
      modifies this`requests
      ensures requests == RejectBetween(statuses, old(requests), a, b)
    {
      requests := map k | k in requests ::
        if k.0 in statuses && requests[k] == Pending
           && ((statuses[k.0].owner == a && k.1 == b) || (statuses[k.0].owner == b && k.1 == a))
        then Rejected else requests[k];
    }

    method CloseStatuses(a: UserId, b: UserId)
      modifies this`statuses
      ensures statuses == CloseBetween(old(statuses), requests, a, b)
      ensures statuses.Keys == old(statuses).Keys
      ensures forall id :: id in statuses ==>
        (statuses[id].active <==>
           && old(statuses)[id].active
           && !exists k :: k in requests && k.0 == id && requests[k] == Rejected
                && ((statuses[id].owner == a && k.1 == b) || (statuses[id].owner == b && k.1 == a)))
    {
      var open := set id | id in statuses && statuses[id].active
        && (exists k :: k in requests && k.0 == id && requests[k] == Rejected
              && ((statuses[id].owner == a && k.1 == b) || (statuses[id].owner == b && k.1 == a)));
      forall id | id in statuses && RejectedBetween(requests, id, statuses[id], a, b)
        ensures exists k :: k in requests && k.0 == id && requests[k] == Rejected
                  && ((statuses[id].owner == a && k.1 == b) || (statuses[id].owner == b && k.1 == a))
      {
        var k := if statuses[id].owner == a && IsRejected(requests, (id, b)) then (id, b) else (id, a);
        assert k in requests && k.0 == id && requests[k] == Rejected;
      }
      statuses := map id | id in statuses :: if id in open then statuses[id].(active := false) else statuses[id];
    }

    // ----- Chat -----

    // Only between matched users, and only when one side has premium.
    method SendDateRequest(sender: UserId, matchId: Id) returns (ok: bool)
      modifies this
      ensures Contents() == SendTx(old(Contents()), sender, matchId) && log == old(log)
      ensures ok <==>
        && matchId in old(matches) && sender in {old(matches)[matchId].user1, old(matches)[matchId].user2}
        && old(matches)[matchId].user1 in old(users) && old(matches)[matchId].user2 in old(users)
        && (TransactionLaws.IsPremium(old(Contents()), old(matches)[matchId].user1)
            || TransactionLaws.IsPremium(old(Contents()), old(matches)[matchId].user2))
    {
      if matchId !in matches {
        return false;
      }
      var user1, user2 := matches[matchId].user1, matches[matchId].user2;
      if sender != user1 && sender != user2 {
        return false;
      }
      var other := user1;
      if sender == user1 {
        other := user2;
      }
      if sender !in users || other !in users {
        return false;
      }
      var senderExpires, otherExpires := users[sender].premiumUntil, users[other].premiumUntil;
      var senderPremium := users[sender].isPremium && senderExpires.Some? && senderExpires.value > clock;
      var otherPremium := users[other].isPremium && otherExpires.Some? && otherExpires.value > clock;
      if !senderPremium && !otherPremium {
        return false;
      }
      messages := messages[nextId := Message(matchId, sender)];
      nextId := nextId + 1;
      return true;
    }

    // ----- Runs -----

    // One event of a run, whatever it is.
    method Execute(e: Event)
      requires Valid()
      modifies this
      ensures Valid() && log == old(log) + [e]
    {
      MatchHistory.MatchesAlwaysOk(distance, start, log);
      match e {
        case Tick(elapsed) => Advance(elapsed);
        case Register(user, gender) => var _ := RegisterUser(user, gender);
        case UpdateLocation(user, pos) => var _ := UpdatePosition(user, pos);
        case CreateStatus(owner, pos, ttlHours) => var _ := CreateStatus(owner, pos, ttlHours);
        case Join(status, requester) => var _ := CreateStatusRequest(status, requester);
        case Accept(status, requester, caller) => var _ := AcceptRequestAndCloseStatus(status, requester, caller);
        case Swipe(swiper, target, action) => var _ := RecordSwipeAndCheckMatch(swiper, target, action);
        case Block(blocker, blocked) => var _ := BlockUser(blocker, blocked);
        case SendDateRequest(sender, matchId) => var _ := SendDateRequest(sender, matchId);
        case Call(user) => var _ := CheckCallQuota(user);
        case Purchase(user) => var _ := ActivateSubscription(user);
      }
      assert Contents() == Apply(old(Contents()), e);
      assert (log + [e])[..|log|] == log;
      log := log + [e];
    }
  }
}

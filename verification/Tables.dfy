/**
 The tables of the backend as one value, the transactions on them as functions, and serial runs of
 transactions.  The class Store updates the same tables statement by statement and is proved
 against these functions; the properties of whole runs are proved about them.

 Time is one clock that never goes back.  Identifiers come from a counter, of which only freshness
 matters.  A join request is identified by its unique (status, requester) pair, because request rows
 are never deleted.  A statement whose foreign key fails leaves everything as it was.
 */
module Tables {
  import opened Options
  import opened Requests
  import opened Calendar

  type UserId = nat
  type Id = nat
  type RequestKey = (Id, UserId)

  datatype Pos = Pos(lat: real, lon: real)

  datatype Action = Like | Dislike

  // The columns of users that some transaction reads or writes.
  datatype Account = Account(isPremium: bool, premiumUntil: Option<Time>, callCount: nat,
                             lastReset: Option<Time>, shadowbanned: bool)

  // lat, lon and location_updated_at are always written together.
  datatype Profile = Profile(gender: string, preference: Option<string>, place: Option<Place>)
  datatype Place = Place(pos: Pos, since: Time)

  datatype Status = Status(owner: UserId, pos: Pos, expiresAt: Time, active: bool, createdAt: Time)

  datatype Match = Match(user1: UserId, user2: UserId)

  datatype Message = Message(matchId: Id, sender: UserId)

  datatype Db = Db(
    clock: Time,
    nextId: Id,
    users: map<UserId, Account>,
    profiles: map<UserId, Profile>,
    statuses: map<Id, Status>,
    requests: map<RequestKey, RequestState>,
    swipes: map<(UserId, UserId), Action>,
    matches: map<Id, Match>,
    messages: map<Id, Message>,
    blocks: set<(UserId, UserId)>,
    distance: (Pos, Pos) -> real   // haversine_distance_km
  )

  datatype Event =
    | Tick(elapsed: nat)
    | Register(user: UserId, gender: string)
    | UpdateLocation(user: UserId, pos: Pos)
    | CreateStatus(owner: UserId, pos: Pos, ttlHours: int)
    | Join(status: Id, requester: UserId)
    | Accept(status: Id, requester: UserId, caller: UserId)
    | Swipe(swiper: UserId, target: UserId, action: Action)
    | Block(blocker: UserId, blocked: UserId)
    | SendDateRequest(sender: UserId, matchId: Id)
    | Call(user: UserId)
    | Purchase(user: UserId)

  function Empty(distance: (Pos, Pos) -> real, start: Time): Db {
    Db(start, 0, map[], map[], map[], map[], map[], map[], map[], {}, distance)
  }

  // ----- Accounts: registration, purchases, the call quota -----

  const TRIAL: Time := 7 * DAY
  const MONTHLY_CALLS: nat := 5

  function RegisterTx(db: Db, user: UserId, gender: string): Db {
    if user in db.users then db
    else db.(users := db.users[user := Account(true, Some(db.clock + TRIAL), 0, Some(db.clock), false)],
             profiles := db.profiles[user := Profile(gender, None, None)])
  }

  // Premium as the call quota sees it: an expiry in the future.
  predicate QuotaPremium(a: Account, now: Time) {
    a.premiumUntil.Some? && a.premiumUntil.value > now
  }

  // Premium as the chat gate sees it: the flag as well.
  predicate ChatPremium(a: Account, now: Time) {
    a.isPremium && a.premiumUntil.Some? && a.premiumUntil.value > now
  }

  predicate ResetDue(a: Account, now: Time) {
    a.lastReset.None? || now > AddMonth(a.lastReset.value)
  }

  // The counter as the quota check finds it, after a due reset.
  function CurrentCount(a: Account, now: Time): nat {
    if ResetDue(a, now) then 0 else a.callCount
  }

  // A call by a user without premium that the quota lets through, and so counts.
  predicate CountedCall(db: Db, user: UserId) {
    && user in db.users
    && !QuotaPremium(db.users[user], db.clock)
    && CurrentCount(db.users[user], db.clock) < MONTHLY_CALLS
  }

  function CallTx(db: Db, user: UserId): Db {
    if !CountedCall(db, user) then db
    else
      var a := db.users[user];
      var reset := if ResetDue(a, db.clock) then Some(db.clock) else a.lastReset;
      var count := CurrentCount(a, db.clock) + 1;
      db.(users := db.users[user := a.(isPremium := false, callCount := count, lastReset := reset)])
  }

  // The time a purchase buys: one calendar month from the moment of purchase.
  function Bought(now: Time): Time {
    AddMonth(now) - now
  }

  function PurchaseTx(db: Db, user: UserId): Db {
    if user !in db.users then db
    else
      var a := db.users[user];
      var until := if QuotaPremium(a, db.clock) then a.premiumUntil.value + Bought(db.clock) else AddMonth(db.clock);
      GrantPremium(db, user, until)
  }

  function GrantPremium(db: Db, user: UserId, until: Time): Db
    requires user in db.users
  {
    db.(users := db.users[user := db.users[user].(isPremium := true, premiumUntil := Some(until))])
  }

  // ----- Locations -----

  const MAX_SPEED: real := 1000.0

  // Hours since the last position, or a small positive number when no time has passed.
  function HoursSince(since: Time, now: Time): real {
    if now <= since then 0.001 else (now - since) as real / HOUR as real
  }

  predicate Plausible(db: Db, place: Place, pos: Pos) {
    db.distance(place.pos, pos) / HoursSince(place.since, db.clock) <= MAX_SPEED
  }

  function UpdateLocationTx(db: Db, user: UserId, pos: Pos): Db {
    if user !in db.profiles || user !in db.users then db
    else
      var p := db.profiles[user];
      if p.place.None? || Plausible(db, p.place.value, pos) then
        db.(profiles := db.profiles[user := p.(place := Some(Place(pos, db.clock)))])
      else
        db.(users := db.users[user := db.users[user].(shadowbanned := true)])
  }

  // ----- Live statuses and join requests -----

  function Ttl(hours: int): int {
    if hours <= 0 || hours > 24 then 24 else hours
  }

  function CreateStatusTx(db: Db, owner: UserId, pos: Pos, ttlHours: int): Db {
    if owner !in db.users then db
    else
      var status := Status(owner, pos, db.clock + Ttl(ttlHours) * HOUR, true, db.clock);
      db.(statuses := db.statuses[db.nextId := status], nextId := db.nextId + 1)
  }

  function JoinTx(db: Db, status: Id, requester: UserId): Db {
    if status !in db.statuses || requester !in db.users then db
    else db.(requests := db.requests[(status, requester) := Pending])
  }

  predicate CanAccept(db: Db, status: Id, requester: UserId, caller: UserId) {
    && (status, requester) in db.requests && db.requests[(status, requester)] == Pending
    && status in db.statuses
    && db.statuses[status].owner == caller && db.statuses[status].active && db.statuses[status].expiresAt > db.clock
  }

  // The requests of one status, by requester.
  function RequestsOf(db: Db, status: Id): map<UserId, RequestState> {
    map k | k in db.requests && k.0 == status :: k.1 := db.requests[k]
  }

  function AcceptTx(db: Db, status: Id, requester: UserId, caller: UserId): Db {
    if !CanAccept(db, status, requester, caller) then db
    else
      db.(requests := map k | k in db.requests ::
                        if k.0 != status then db.requests[k]
                        else if k.1 == requester then Accepted
                        else if db.requests[k] == Pending then Rejected
                        else db.requests[k],
          statuses := db.statuses[status := db.statuses[status].(active := false)])
  }

  // ----- Swipes and matches -----

  // The match is between these two users, in either order.
  predicate Joins(m: Match, a: UserId, b: UserId) {
    (m.user1 == a && m.user2 == b) || (m.user1 == b && m.user2 == a)
  }

  function Canonical(a: UserId, b: UserId): Match {
    if a < b then Match(a, b) else Match(b, a)
  }

  predicate HasMatch(db: Db, a: UserId, b: UserId) {
    exists m :: m in db.matches && Joins(db.matches[m], a, b)
  }

  predicate Likes(db: Db, a: UserId, b: UserId) {
    (a, b) in db.swipes && db.swipes[(a, b)] == Like
  }

  predicate ValidPair(db: Db, a: UserId, b: UserId) {
    a != b && a in db.users && b in db.users
  }

  function SwipeTx(db: Db, swiper: UserId, target: UserId, action: Action): Db {
    if !ValidPair(db, swiper, target) then db
    else
      var swiped := db.(swipes := db.swipes[(swiper, target) := action]);
      if action == Like && Likes(db, target, swiper) && !HasMatch(db, swiper, target) then
        swiped.(matches := db.matches[db.nextId := Canonical(swiper, target)], nextId := db.nextId + 1)
      else swiped
  }

  // ----- Blocks -----

  // The request of one of the two users to join a status of the other.
  predicate RequestBetween(statuses: map<Id, Status>, k: RequestKey, a: UserId, b: UserId) {
    && k.0 in statuses
    && var owner := statuses[k.0].owner; (owner == a && k.1 == b) || (owner == b && k.1 == a)
  }

  function RejectBetween(statuses: map<Id, Status>, requests: map<RequestKey, RequestState>, a: UserId, b: UserId)
    : map<RequestKey, RequestState>
  {
    map k | k in requests ::
      if RequestBetween(statuses, k, a, b) && requests[k] == Pending then Rejected else requests[k]
  }

  predicate IsRejected(requests: map<RequestKey, RequestState>, k: RequestKey) {
    k in requests && requests[k] == Rejected
  }

  // The status belongs to one of the two users and a request of the other one is rejected.
  predicate RejectedBetween(requests: map<RequestKey, RequestState>, id: Id, s: Status, a: UserId, b: UserId) {
    (s.owner == a && IsRejected(requests, (id, b))) || (s.owner == b && IsRejected(requests, (id, a)))
  }

  function CloseBetween(statuses: map<Id, Status>, requests: map<RequestKey, RequestState>, a: UserId, b: UserId)
    : map<Id, Status>
  {
    map id | id in statuses ::
      if RejectedBetween(requests, id, statuses[id], a, b) then statuses[id].(active := false) else statuses[id]
  }

  function Unmatch(matches: map<Id, Match>, a: UserId, b: UserId): map<Id, Match> {
    map m | m in matches && !Joins(matches[m], a, b) :: matches[m]
  }

  // Messages go with their match (ON DELETE CASCADE).
  function CascadeMessages(messages: map<Id, Message>, matches: map<Id, Match>, a: UserId, b: UserId)
    : map<Id, Message>
  {
    map i | i in messages && !(messages[i].matchId in matches && Joins(matches[messages[i].matchId], a, b)) ::
      messages[i]
  }

  function BlockTx(db: Db, blocker: UserId, blocked: UserId): Db {
    if !ValidPair(db, blocker, blocked) then db
    else
      var requests := RejectBetween(db.statuses, db.requests, blocker, blocked);
      db.(blocks := db.blocks + {(blocker, blocked)},
          matches := Unmatch(db.matches, blocker, blocked),
          messages := CascadeMessages(db.messages, db.matches, blocker, blocked),
          requests := requests,
          statuses := CloseBetween(db.statuses, requests, blocker, blocked))
  }

  // ----- Messages -----

  function OtherParty(m: Match, user: UserId): UserId {
    if user == m.user1 then m.user2 else m.user1
  }

  predicate CanSend(db: Db, sender: UserId, matchId: Id) {
    && matchId in db.matches
    && var m := db.matches[matchId];
       && (sender == m.user1 || sender == m.user2)
       && sender in db.users && OtherParty(m, sender) in db.users
       && (ChatPremium(db.users[sender], db.clock) || ChatPremium(db.users[OtherParty(m, sender)], db.clock))
  }

  function SendTx(db: Db, sender: UserId, matchId: Id): Db {
    if !CanSend(db, sender, matchId) then db
    else db.(messages := db.messages[db.nextId := Message(matchId, sender)], nextId := db.nextId + 1)
  }

  // ----- Runs -----

  function Apply(db: Db, e: Event): Db {
    match e
    case Tick(elapsed) => db.(clock := db.clock + elapsed)
    case Register(user, gender) => RegisterTx(db, user, gender)
    case UpdateLocation(user, pos) => UpdateLocationTx(db, user, pos)
    case CreateStatus(owner, pos, ttlHours) => CreateStatusTx(db, owner, pos, ttlHours)
    case Join(status, requester) => JoinTx(db, status, requester)
    case Accept(status, requester, caller) => AcceptTx(db, status, requester, caller)
    case Swipe(swiper, target, action) => SwipeTx(db, swiper, target, action)
    case Block(blocker, blocked) => BlockTx(db, blocker, blocked)
    case SendDateRequest(sender, matchId) => SendTx(db, sender, matchId)
    case Call(user) => CallTx(db, user)
    case Purchase(user) => PurchaseTx(db, user)
  }

  // Which transactions can change which table; users and identifiers are only ever added.
  lemma UntouchedSwipes(db: Db, e: Event)
    ensures !e.Swipe? ==> Apply(db, e).swipes == db.swipes
  {
  }

  lemma UntouchedMatches(db: Db, e: Event)
    ensures !e.Swipe? && !e.Block? ==> Apply(db, e).matches == db.matches
  {
  }

  // The other transactions leave the messages and the identifiers of matches alone.
  lemma UntouchedMessages(db: Db, e: Event)
    ensures !e.SendDateRequest? && !e.Block? ==> Apply(db, e).messages == db.messages
    ensures Apply(db, e).nextId >= db.nextId
  {
  }

  lemma UntouchedStatuses(db: Db, e: Event)
    ensures !e.CreateStatus? && !e.Accept? && !e.Block? ==> Apply(db, e).statuses == db.statuses
  {
  }

  lemma UntouchedRequests(db: Db, e: Event)
    ensures !e.Join? && !e.Accept? && !e.Block? ==> Apply(db, e).requests == db.requests
  {
  }

  lemma UntouchedProfiles(db: Db, e: Event)
    ensures !e.Register? && !e.UpdateLocation? ==> Apply(db, e).profiles == db.profiles
  {
  }

  lemma UntouchedClock(db: Db, e: Event)
    ensures Apply(db, e).clock == db.clock + if e.Tick? then e.elapsed else 0
  {
    match e
    case Tick(elapsed) => assert Apply(db, e) == db.(clock := db.clock + elapsed);
    case Register(user, gender) => assert Apply(db, e) == RegisterTx(db, user, gender);
    case UpdateLocation(user, pos) => assert Apply(db, e) == UpdateLocationTx(db, user, pos);
    case CreateStatus(owner, pos, ttlHours) => assert Apply(db, e) == CreateStatusTx(db, owner, pos, ttlHours);
    case Join(status, requester) => assert Apply(db, e) == JoinTx(db, status, requester);
    case Accept(status, requester, caller) => assert Apply(db, e) == AcceptTx(db, status, requester, caller);
    case Swipe(swiper, target, action) => assert Apply(db, e) == SwipeTx(db, swiper, target, action);
    case Block(blocker, blocked) => assert Apply(db, e) == BlockTx(db, blocker, blocked);
    case SendDateRequest(sender, matchId) => assert Apply(db, e) == SendTx(db, sender, matchId);
    case Call(user) => assert Apply(db, e) == CallTx(db, user);
    case Purchase(user) => assert Apply(db, e) == PurchaseTx(db, user);
  }

  lemma UntouchedUsers(db: Db, e: Event)
    ensures !e.Register? && !e.UpdateLocation? && !e.Call? && !e.Purchase? ==> Apply(db, e).users == db.users
  {
  }

  // Who is a user: whoever has registered, and nobody ever leaves.
  lemma WhoIsUser(db: Db, e: Event, u: UserId)
    ensures u in Apply(db, e).users <==> u in db.users || (e.Register? && e.user == u)
  {
    match e
    case Register(user, gender) => assert Apply(db, e) == RegisterTx(db, user, gender);
    case UpdateLocation(user, pos) => SameUsersMoved(db, user, pos);
    case Call(user) => SameUsersCalled(db, user);
    case Purchase(user) => SameUsersPaid(db, user);
    case _ => UntouchedUsers(db, e);
  }

  lemma SameUsersMoved(db: Db, user: UserId, pos: Pos)
    ensures UpdateLocationTx(db, user, pos).users.Keys == db.users.Keys
  {
  }

  lemma SameUsersCalled(db: Db, user: UserId)
    ensures CallTx(db, user).users.Keys == db.users.Keys
  {
  }

  lemma SameUsersPaid(db: Db, user: UserId)
    ensures PurchaseTx(db, user).users.Keys == db.users.Keys
  {
  }

  // Outside calls and purchases, the row of a user keeps everything but the shadowban.
  lemma RowKept(db: Db, e: Event, u: UserId)
    requires u in db.users && !e.Call? && !e.Purchase?
    ensures u in Apply(db, e).users
    ensures Apply(db, e).users[u] == db.users[u] || Apply(db, e).users[u] == db.users[u].(shadowbanned := true)
  {
    match e
    case Register(user, gender) => assert Apply(db, e) == RegisterTx(db, user, gender);
    case UpdateLocation(user, pos) => assert Apply(db, e) == UpdateLocationTx(db, user, pos);
    case _ => UntouchedUsers(db, e);
  }

  lemma IdsGrow(db: Db, e: Event)
    ensures db.nextId <= Apply(db, e).nextId
  {
    match e
    case Swipe(_, _, _) =>
    case CreateStatus(_, _, _) =>
    case SendDateRequest(_, _) =>
    case _ =>
  }

  function Run(db: Db, es: seq<Event>): Db {
    if es == [] then db else Apply(Run(db, es[..|es| - 1]), es[|es| - 1])
  }

  // The state of a database that started empty and went through these events.
  function History(distance: (Pos, Pos) -> real, start: Time, es: seq<Event>): Db {
    Run(Empty(distance, start), es)
  }

  lemma RunNext(db: Db, es: seq<Event>, i: nat)
    requires i < |es|
    ensures Run(db, es[..i + 1]) == Apply(Run(db, es[..i]), es[i])
  {
    assert es[..i + 1][..i] == es[..i];
  }

  lemma {:induction false} RunConcat(db: Db, es: seq<Event>, more: seq<Event>)
    ensures Run(db, es + more) == Run(Run(db, es), more)
    decreases more
  {
    if more == [] {
      assert es + more == es;
    } else {
      assert (es + more)[..|es + more| - 1] == es + more[..|more| - 1];
      RunConcat(db, es, more[..|more| - 1]);
    }
  }

  lemma RunSplit(db: Db, es: seq<Event>, i: nat, j: nat)
    requires i <= j <= |es|
    ensures Run(db, es[..j]) == Run(Run(db, es[..i]), es[i..j])
  {
    assert es[..j] == es[..i] + es[i..j];
    RunConcat(db, es[..i], es[i..j]);
  }
}

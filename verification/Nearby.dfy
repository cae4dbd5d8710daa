/**
 The two discovery queries, over profiles and over live statuses: who is on the result and in which
 order, how the radius relates to the query without one, and that a block hides each side from the
 other for good.
 */
module Nearby {
  import opened Options
  import opened Calendar
  import opened Tables
  import opened Ranking
  import Moderation
  import StatusRuns

  const DEFAULT_LIMIT: nat := 50
  const DEFAULT_RADIUS: real := 10.0
  const MAX_RADIUS: real := 1000.0

  function RowLimit(limit: int): nat {
    if limit <= 0 then DEFAULT_LIMIT else limit
  }

  // ----- Profiles -----

  // The searching user's preference admits the gender.  An absent preference admits nobody.
  predicate Admits(preference: Option<string>, gender: string) {
    preference.Some? &&
    ( || preference.value == "any"
      || (preference.value == "both" && gender in ["male", "female"])
      || (preference.value in ["male", "female"] && gender == preference.value))
  }

  predicate Eligible(db: Db, self: UserId, other: UserId) {
    && self in db.profiles && other in db.profiles && other in db.users && other != self
    && !Moderation.Blocked(db, self, other)
    && db.profiles[self].place.Some? && db.profiles[other].place.Some?
    && !db.users[other].shadowbanned
    && Admits(db.profiles[self].preference, db.profiles[other].gender)
    && (self, other) !in db.swipes
  }

  function ProfileRow(db: Db, self: UserId, other: UserId): Row
    requires Eligible(db, self, other)
  {
    Row(other, db.distance(db.profiles[self].place.value.pos, db.profiles[other].place.value.pos), 0)
  }

  function ProfileRows(db: Db, self: UserId): set<Row> {
    set other | other in db.profiles && Eligible(db, self, other) :: ProfileRow(db, self, other)
  }

  // What the service makes of the requested radius: none stands for no radius at all.
  function ProfileRadius(radius: real): Option<real> {
    if radius < 0.0 then None
    else if radius == 0.0 then Some(DEFAULT_RADIUS)
    else if radius > MAX_RADIUS then Some(MAX_RADIUS)
    else Some(radius)
  }

  function RowsIn(rows: set<Row>, radius: Option<real>): set<Row> {
    if radius.None? then rows else set x | x in rows && x.distance <= radius.value
  }

  ghost function NearbyProfiles(db: Db, self: UserId, radius: real, limit: int): seq<Row> {
    Limit(Ranked(RowsIn(ProfileRows(db, self), ProfileRadius(radius))), RowLimit(limit))
  }

  // For every radius and limit, the query with a radius returns the front of the query without one:
  // its rows up to the first that is too far away.
  lemma RadiusIsPrefix(db: Db, self: UserId, radius: real, limit: int)
    requires radius >= 0.0
    ensures NearbyProfiles(db, self, radius, limit)
         == TakeWithin(NearbyProfiles(db, self, -1.0, limit), ProfileRadius(radius).value)
  {
    var rows, r := ProfileRows(db, self), ProfileRadius(radius).value;
    WithinIsPrefix(rows, r);
    LimitWithin(Ranked(rows), r, RowLimit(limit));
  }

  lemma ProfileShown(db: Db, self: UserId, radius: real, limit: int, row: Row)
    requires row in NearbyProfiles(db, self, radius, limit)
    ensures Eligible(db, self, row.id)
  {
    var rows := RowsIn(ProfileRows(db, self), ProfileRadius(radius));
    RankedIsRanking(rows);
    assert row in Ranked(rows) && row in ProfileRows(db, self);
  }

  // Whoever fits and is near enough is shown, unless the list is full of nearer ones.
  lemma NearestAreShown(db: Db, self: UserId, other: UserId, radius: real, limit: int)
    requires Eligible(db, self, other)
    requires ProfileRadius(radius).Some? ==> ProfileRow(db, self, other).distance <= ProfileRadius(radius).value
    ensures var shown, row := NearbyProfiles(db, self, radius, limit), ProfileRow(db, self, other);
      row in shown || (|shown| == RowLimit(limit) && forall x :: x in shown ==> Before(x, row))
  {
    LimitIsTop(RowsIn(ProfileRows(db, self), ProfileRadius(radius)), RowLimit(limit), ProfileRow(db, self, other));
  }

  // The conditions of the profile query, column by column.
  predicate MeetsProfileQuery(db: Db, self: UserId, other: UserId) {
    && self != other && self in db.profiles && other in db.profiles && other in db.users
    && db.profiles[self].place.Some? && db.profiles[other].place.Some?
    && !db.users[other].shadowbanned
    && (self, other) !in db.blocks && (other, self) !in db.blocks
    && (self, other) !in db.swipes
    && match db.profiles[self].preference
       case None => false
       case Some(wanted) =>
         var gender := db.profiles[other].gender;
         || wanted == "any"
         || (wanted == "both" && (gender == "male" || gender == "female"))
         || (wanted == "male" && gender == "male")
         || (wanted == "female" && gender == "female")
  }

  // The distance asked for: none below zero, 10 km by default, and at most 1000 km.
  predicate InProfileRadius(distance: real, radius: real) {
    || radius < 0.0
    || (radius == 0.0 && distance <= 10.0)
    || (radius > 0.0 && distance <= radius && distance <= 1000.0)
  }

  // The list in order of distance, at most as many as asked for, or 50.
  ghost predicate NearestFirst(rows: seq<Row>, limit: int) {
    && (forall i, j :: 0 <= i < j < |rows| ==> rows[i].distance <= rows[j].distance && rows[i] != rows[j])
    && |rows| <= if limit <= 0 then 50 else limit
  }

  lemma RankedFirst(rows: set<Row>, limit: int)
    ensures NearestFirst(Limit(Ranked(rows), RowLimit(limit)), limit)
  {
    RankedIsRanking(rows);
    var all := Ranked(rows);
    assert forall i, j :: 0 <= i < j < |all| ==> Before(all[i], all[j]);
  }

  lemma EligibleMeets(db: Db, self: UserId, other: UserId)
    ensures Eligible(db, self, other) <==> MeetsProfileQuery(db, self, other)
  {
  }

  // What the profile query returns, in full: only profiles that meet its conditions, each once with its
  // own distance, nearest first; and every such profile, unless the list is full of others no farther.
  lemma ProfileQuery(db: Db, self: UserId, radius: real, limit: int)
    ensures var shown := NearbyProfiles(db, self, radius, limit);
      && NearestFirst(shown, limit)
      && (forall row :: row in shown ==>
            && MeetsProfileQuery(db, self, row.id) && InProfileRadius(row.distance, radius)
            && row.distance == db.distance(db.profiles[self].place.value.pos, db.profiles[row.id].place.value.pos))
      && (forall other | MeetsProfileQuery(db, self, other) ::
            var d := db.distance(db.profiles[self].place.value.pos, db.profiles[other].place.value.pos);
            InProfileRadius(d, radius) ==>
              || (exists row :: row in shown && row.id == other)
              || (|shown| == (if limit <= 0 then 50 else limit) && forall row :: row in shown ==> row.distance <= d))
  {
    var shown := NearbyProfiles(db, self, radius, limit);
    RankedFirst(RowsIn(ProfileRows(db, self), ProfileRadius(radius)), limit);
    forall row | row in shown
      ensures MeetsProfileQuery(db, self, row.id) && InProfileRadius(row.distance, radius)
      ensures row.distance == db.distance(db.profiles[self].place.value.pos, db.profiles[row.id].place.value.pos)
    {
      ShownRow(db, self, radius, limit, row);
    }
    forall other | MeetsProfileQuery(db, self, other)
      ensures var d := db.distance(db.profiles[self].place.value.pos, db.profiles[other].place.value.pos);
        InProfileRadius(d, radius) ==>
          || (exists row :: row in shown && row.id == other)
          || (|shown| == (if limit <= 0 then 50 else limit) && forall row :: row in shown ==> row.distance <= d)
    {
      EligibleMeets(db, self, other);
      var row := ProfileRow(db, self, other);
      if InProfileRadius(row.distance, radius) {
        NearestAreShown(db, self, other, radius, limit);
        if row in shown {
          assert row.id == other;
        }
      }
    }
  }

  lemma ShownRow(db: Db, self: UserId, radius: real, limit: int, row: Row)
    requires row in NearbyProfiles(db, self, radius, limit)
    ensures MeetsProfileQuery(db, self, row.id) && InProfileRadius(row.distance, radius)
    ensures row.distance == db.distance(db.profiles[self].place.value.pos, db.profiles[row.id].place.value.pos)
  {
    var rows := RowsIn(ProfileRows(db, self), ProfileRadius(radius));
    RankedIsRanking(rows);
    assert row in Ranked(rows) && row in rows;
    EligibleMeets(db, self, row.id);
  }

  // ----- Statuses -----

  function StatusRadius(radius: real): real {
    if radius <= 0.0 then DEFAULT_RADIUS else if radius > MAX_RADIUS then MAX_RADIUS else radius
  }

  predicate Visible(db: Db, viewer: UserId, status: Id) {
    && status in db.statuses && db.statuses[status].active && db.statuses[status].expiresAt > db.clock
    && !Moderation.Blocked(db, viewer, db.statuses[status].owner)
  }

  function StatusRow(db: Db, pos: Pos, status: Id): Row
    requires status in db.statuses
  {
    Row(status, db.distance(db.statuses[status].pos, pos), db.statuses[status].createdAt)
  }

  function StatusRows(db: Db, viewer: UserId, pos: Pos): set<Row> {
    set id | id in db.statuses && Visible(db, viewer, id) :: StatusRow(db, pos, id)
  }

  ghost function NearbyStatuses(db: Db, viewer: UserId, pos: Pos, radius: real, limit: int): seq<Row> {
    Limit(Ranked(RowsIn(StatusRows(db, viewer, pos), Some(StatusRadius(radius)))), RowLimit(limit))
  }

  lemma StatusShown(db: Db, viewer: UserId, pos: Pos, radius: real, limit: int, row: Row)
    requires row in NearbyStatuses(db, viewer, pos, radius, limit)
    ensures Visible(db, viewer, row.id)
  {
    var rows := RowsIn(StatusRows(db, viewer, pos), Some(StatusRadius(radius)));
    RankedIsRanking(rows);
    assert row in Ranked(rows) && row in StatusRows(db, viewer, pos);
  }

  // The conditions of the status query, column by column.
  predicate MeetsStatusQuery(db: Db, viewer: UserId, id: Id) {
    && id in db.statuses && db.statuses[id].active && db.clock < db.statuses[id].expiresAt
    && (viewer, db.statuses[id].owner) !in db.blocks && (db.statuses[id].owner, viewer) !in db.blocks
  }

  // At most the distance asked for, 10 km by default, and at most 1000 km.
  predicate InStatusRadius(distance: real, radius: real) {
    if radius <= 0.0 then distance <= 10.0 else distance <= radius && distance <= 1000.0
  }

  // What the status query returns, in full: only statuses that meet its conditions, each once with its
  // distance from the given position, nearest first and among equals the newest first; and every such
  // status, unless the list is full of others no farther.
  lemma StatusQuery(db: Db, viewer: UserId, pos: Pos, radius: real, limit: int)
    ensures var shown := NearbyStatuses(db, viewer, pos, radius, limit);
      && NearestFirst(shown, limit)
      && (forall i, j :: 0 <= i < j < |shown| && shown[i].distance == shown[j].distance ==>
            shown[i].created >= shown[j].created)
      && (forall row :: row in shown ==>
            && MeetsStatusQuery(db, viewer, row.id) && InStatusRadius(row.distance, radius)
            && row.distance == db.distance(db.statuses[row.id].pos, pos)
            && row.created == db.statuses[row.id].createdAt)
      && (forall id | MeetsStatusQuery(db, viewer, id) ::
            var d := db.distance(db.statuses[id].pos, pos);
            InStatusRadius(d, radius) ==>
              || (exists row :: row in shown && row.id == id)
              || (|shown| == (if limit <= 0 then 50 else limit) && forall row :: row in shown ==> row.distance <= d))
  {
    var shown := NearbyStatuses(db, viewer, pos, radius, limit);
    RankedFirst(RowsIn(StatusRows(db, viewer, pos), Some(StatusRadius(radius))), limit);
    NewestFirst(RowsIn(StatusRows(db, viewer, pos), Some(StatusRadius(radius))), RowLimit(limit));
    forall row | row in shown
      ensures MeetsStatusQuery(db, viewer, row.id) && InStatusRadius(row.distance, radius)
      ensures row.distance == db.distance(db.statuses[row.id].pos, pos) && row.created == db.statuses[row.id].createdAt
    {
      ShownStatusRow(db, viewer, pos, radius, limit, row);
    }
    forall id | MeetsStatusQuery(db, viewer, id)
      ensures var d := db.distance(db.statuses[id].pos, pos);
        InStatusRadius(d, radius) ==>
          || (exists row :: row in shown && row.id == id)
          || (|shown| == (if limit <= 0 then 50 else limit) && forall row :: row in shown ==> row.distance <= d)
    {
      var row := StatusRow(db, pos, id);
      if InStatusRadius(row.distance, radius) {
        assert row in StatusRows(db, viewer, pos);
        LimitIsTop(RowsIn(StatusRows(db, viewer, pos), Some(StatusRadius(radius))), RowLimit(limit), row);
        if row in shown {
          assert row.id == id;
        }
      }
    }
  }

  lemma NewestFirst(rows: set<Row>, limit: nat)
    ensures var shown := Limit(Ranked(rows), limit);
      forall i, j :: 0 <= i < j < |shown| && shown[i].distance == shown[j].distance ==>
        shown[i].created >= shown[j].created
  {
    RankedIsRanking(rows);
    var all := Ranked(rows);
    assert forall i, j :: 0 <= i < j < |all| ==> Before(all[i], all[j]);
  }

  lemma ShownStatusRow(db: Db, viewer: UserId, pos: Pos, radius: real, limit: int, row: Row)
    requires row in NearbyStatuses(db, viewer, pos, radius, limit)
    ensures MeetsStatusQuery(db, viewer, row.id) && InStatusRadius(row.distance, radius)
    ensures row.distance == db.distance(db.statuses[row.id].pos, pos) && row.created == db.statuses[row.id].createdAt
  {
    var rows := RowsIn(StatusRows(db, viewer, pos), Some(StatusRadius(radius)));
    RankedIsRanking(rows);
    assert row in Ranked(rows) && row in rows;
  }

  // ----- Blocks hide -----

  // Neither user appears in what the other is shown, whatever the place, radius and limit.
  ghost predicate Hidden(db: Db, a: UserId, b: UserId) {
    && (forall radius, limit, row :: row in NearbyProfiles(db, a, radius, limit) ==> row.id != b)
    && (forall pos, radius, limit, row :: row in NearbyStatuses(db, a, pos, radius, limit) ==>
          row.id in db.statuses && db.statuses[row.id].owner != b)
  }

  lemma BlockedIsHidden(db: Db, a: UserId, b: UserId)
    requires Moderation.Blocked(db, a, b)
    ensures Hidden(db, a, b)
  {
    forall radius, limit, row | row in NearbyProfiles(db, a, radius, limit)
      ensures row.id != b
    {
      ProfileShown(db, a, radius, limit, row);
    }
    forall pos, radius, limit, row | row in NearbyStatuses(db, a, pos, radius, limit)
      ensures row.id in db.statuses && db.statuses[row.id].owner != b
    {
      StatusShown(db, a, pos, radius, limit, row);
    }
  }

  // Once one user has blocked another, neither is shown to the other in any later state, whatever the
  // database held before, the preference column included.
  lemma BlockHidesForever(db: Db, es: seq<Event>, i: nat, a: UserId, b: UserId)
    requires i < |es| && es[i] == Block(a, b) && ValidPair(Run(db, es[..i]), a, b)
    ensures Hidden(Run(db, es), a, b) && Hidden(Run(db, es), b, a)
  {
    RunNext(db, es, i);
    Moderation.BlockedForever(Run(db, es[..i + 1]), es[i + 1..], a, b);
    RunSplit(db, es, i + 1, |es|);
    assert es[..|es|] == es && es[i + 1..|es|] == es[i + 1..];
    BlockedIsHidden(Run(db, es), a, b);
    BlockedIsHidden(Run(db, es), b, a);
  }

  // ----- Swipes, the shadowban and the end of a status hide for good as well -----

  lemma SwipedStep(db: Db, e: Event, a: UserId, b: UserId)
    requires (a, b) in db.swipes
    ensures (a, b) in Apply(db, e).swipes
  {
    if e.Swipe? {
      SwipedStays(db, e.swiper, e.target, e.action, a, b);
    } else {
      UntouchedSwipes(db, e);
    }
  }

  lemma SwipedStays(db: Db, swiper: UserId, target: UserId, action: Action, a: UserId, b: UserId)
    requires (a, b) in db.swipes
    ensures (a, b) in SwipeTx(db, swiper, target, action).swipes
  {
  }

  // Whoever a user has swiped, either way, is never shown to that user again.
  lemma {:induction false} SwipedNeverShown(db: Db, es: seq<Event>, a: UserId, b: UserId)
    requires (a, b) in db.swipes
    ensures (a, b) in Run(db, es).swipes
    ensures forall radius, limit, row :: row in NearbyProfiles(Run(db, es), a, radius, limit) ==> row.id != b
    decreases es
  {
    if es != [] {
      SwipedNeverShown(db, es[..|es| - 1], a, b);
      SwipedStep(Run(db, es[..|es| - 1]), es[|es| - 1], a, b);
    }
    forall radius, limit, row | row in NearbyProfiles(Run(db, es), a, radius, limit)
      ensures row.id != b
    {
      ProfileShown(Run(db, es), a, radius, limit, row);
    }
  }

  predicate Shadowbanned(db: Db, u: UserId) {
    u in db.users && db.users[u].shadowbanned
  }

  lemma ShadowbannedStep(db: Db, e: Event, u: UserId)
    requires Shadowbanned(db, u)
    ensures Shadowbanned(Apply(db, e), u)
  {
    match e
    case Call(user) => assert Apply(db, e) == CallTx(db, user);
    case Purchase(user) => assert Apply(db, e) == PurchaseTx(db, user);
    case _ => RowKept(db, e, u);
  }

  lemma {:induction false} ShadowbannedForever(db: Db, es: seq<Event>, u: UserId)
    requires Shadowbanned(db, u)
    ensures Shadowbanned(Run(db, es), u)
    decreases es
  {
    if es != [] {
      ShadowbannedForever(db, es[..|es| - 1], u);
      ShadowbannedStep(Run(db, es[..|es| - 1]), es[|es| - 1], u);
    }
  }

  // One impossible move and the profile of the user is shown to nobody in any later state; nor is
  // anybody ever shown to themselves.
  lemma ImpossibleMoveHides(db: Db, es: seq<Event>, u: UserId, pos: Pos,
                            viewer: UserId, radius: real, limit: int, row: Row)
    requires u in db.users && u in db.profiles && db.profiles[u].place.Some?
    requires !Plausible(db, db.profiles[u].place.value, pos)
    requires row in NearbyProfiles(Run(Apply(db, UpdateLocation(u, pos)), es), viewer, radius, limit)
    ensures row.id != u && row.id != viewer
  {
    ShadowbannedForever(Apply(db, UpdateLocation(u, pos)), es, u);
    ProfileShown(Run(Apply(db, UpdateLocation(u, pos)), es), viewer, radius, limit, row);
  }

  // The status is closed, or its time has run out.
  predicate Over(db: Db, status: Id) {
    status in db.statuses && (!db.statuses[status].active || db.statuses[status].expiresAt <= db.clock)
  }

  lemma OverStep(db: Db, e: Event, status: Id)
    requires StatusRuns.DecidedClosed(db) && Over(db, status)
    ensures Over(Apply(db, e), status)
  {
    UntouchedStatuses(db, e);
    UntouchedClock(db, e);
  }

  // A status that is over stays over: nobody is shown it and no request to it is accepted any more.
  lemma {:induction false} OverForever(db: Db, es: seq<Event>, status: Id)
    requires StatusRuns.DecidedClosed(db) && Over(db, status)
    ensures Over(Run(db, es), status)
    ensures forall requester, caller :: !CanAccept(Run(db, es), status, requester, caller)
    ensures forall viewer, pos, radius, limit, row ::
              row in NearbyStatuses(Run(db, es), viewer, pos, radius, limit) ==> row.id != status
    decreases es
  {
    if es != [] {
      OverForever(db, es[..|es| - 1], status);
      StatusRuns.DecidedClosedRun(db, es[..|es| - 1]);
      OverStep(Run(db, es[..|es| - 1]), es[|es| - 1], status);
    }
    forall viewer, pos, radius, limit, row | row in NearbyStatuses(Run(db, es), viewer, pos, radius, limit)
      ensures row.id != status
    {
      StatusShown(Run(db, es), viewer, pos, radius, limit, row);
    }
  }

  // A fresh status is visible to everybody not blocked, for as many hours as asked for, at most a day.
  lemma FreshStatusVisible(db: Db, owner: UserId, pos: Pos, hours: int, elapsed: nat, viewer: UserId)
    requires owner in db.users
    ensures var later := Apply(Apply(db, CreateStatus(owner, pos, hours)), Tick(elapsed));
      Visible(later, viewer, db.nextId) <==>
        !Moderation.Blocked(db, viewer, owner) && elapsed < (if 1 <= hours <= 24 then hours else 24) * HOUR
  {
  }

  // ----- The preference column -----

  ghost predicate NoPreferences(db: Db) {
    forall u :: u in db.profiles ==> db.profiles[u].preference.None?
  }

  lemma NoPreferencesStep(db: Db, e: Event)
    requires NoPreferences(db)
    ensures NoPreferences(Apply(db, e))
  {
    UntouchedProfiles(db, e);
  }

  lemma {:induction false} NoPreferencesRun(db: Db, es: seq<Event>)
    requires NoPreferences(db)
    ensures NoPreferences(Run(db, es))
    decreases es
  {
    if es != [] {
      NoPreferencesRun(db, es[..|es| - 1]);
      NoPreferencesStep(Run(db, es[..|es| - 1]), es[|es| - 1]);
    }
  }

  // No transaction writes the preference column, so in every reachable state it is NULL and the
  // profile query returns nobody.
  lemma NobodyNearby(distance: (Pos, Pos) -> real, start: Time, es: seq<Event>, self: UserId, radius: real, limit: int)
    ensures NearbyProfiles(History(distance, start, es), self, radius, limit) == []
  {
    var db := History(distance, start, es);
    NoPreferencesRun(Empty(distance, start), es);
    var shown := NearbyProfiles(db, self, radius, limit);
    if shown != [] {
      assert shown[0] in shown;
      ProfileShown(db, self, radius, limit, shown[0]);
    }
  }
}

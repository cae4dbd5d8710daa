/**
 The speed gate over a whole run of positions: however a user moves through accepted updates, the
 straight distance between two stored positions is bounded by the time between them.
 */
module LocationRuns {
  import opened Options
  import opened Calendar
  import opened Tables
  import TransactionLaws

  // What the bound needs of the distance: staying put is no distance, and no detour is shorter.
  ghost predicate TriangleInequality(distance: (Pos, Pos) -> real) {
    && (forall p :: distance(p, p) == 0.0)
    && (forall p, q, r :: distance(p, r) <= distance(p, q) + distance(q, r))
  }

  predicate HasPlace(db: Db, u: UserId) {
    u in db.users && u in db.profiles && db.profiles[u].place.Some?
  }

  function PlaceOf(db: Db, u: UserId): Place
    requires HasPlace(db, u)
  {
    db.profiles[u].place.value
  }

  // Positions were stored in the past.
  ghost predicate PlacesOk(db: Db) {
    forall u :: HasPlace(db, u) ==> PlaceOf(db, u).since <= db.clock
  }

  // The event replaces the user's position at the very instant it was stored.
  predicate InstantMove(db: Db, e: Event, u: UserId) {
    && e.UpdateLocation? && e.user == u && HasPlace(db, u)
    && Plausible(db, PlaceOf(db, u), e.pos) && db.clock <= PlaceOf(db, u).since
  }

  // Such a move is at most 1 km.
  lemma InstantMoveMeans(db: Db, e: Event, u: UserId)
    ensures InstantMove(db, e, u) <==>
      && e.UpdateLocation? && e.user == u && u in db.users && u in db.profiles
      && match db.profiles[u].place
         case Some(place) => db.clock <= place.since && db.distance(place.pos, e.pos) <= 1.0
         case None => false
  {
    if e.UpdateLocation? && HasPlace(db, u) {
      TransactionLaws.SpeedGate(db.distance(PlaceOf(db, u).pos, e.pos), PlaceOf(db, u).since, db.clock);
    }
  }

  function InstantMoves(db: Db, es: seq<Event>, u: UserId): nat {
    if es == [] then 0
    else
      var front := es[..|es| - 1];
      InstantMoves(db, front, u) + if InstantMove(Run(db, front), es[|es| - 1], u) then 1 else 0
  }

  function Hours(from: Time, to: Time): real {
    (to - from) as real / HOUR as real
  }

  // As far as the speed limit allows in the time between the two, and a little further.
  predicate Within(distance: (Pos, Pos) -> real, a: Place, b: Place, slack: real) {
    distance(a.pos, b.pos) <= MAX_SPEED * Hours(a.since, b.since) + slack
  }

  lemma WithinTransitive(distance: (Pos, Pos) -> real, a: Place, b: Place, c: Place, slack: real, more: real)
    requires TriangleInequality(distance) && Within(distance, a, b, slack) && Within(distance, b, c, more)
    ensures Within(distance, a, c, slack + more)
  {
    assert distance(a.pos, c.pos) <= distance(a.pos, b.pos) + distance(b.pos, c.pos);
    assert Hours(a.since, c.since) == Hours(a.since, b.since) + Hours(b.since, c.since);
  }

  lemma SpeedBoundsDistance(d: real, hours: real)
    requires 0.0 < hours && d / hours <= MAX_SPEED
    ensures d <= MAX_SPEED * hours
  {
    var speed := d / hours;
    assert d == speed * hours;
    assert (MAX_SPEED - speed) * hours >= 0.0;
  }

  // One event moves a position by at most the allowed speed times the time since it was stored.
  lemma MoveStep(db: Db, e: Event, u: UserId)
    requires PlacesOk(db) && HasPlace(db, u) && TriangleInequality(db.distance)
    ensures var after := Apply(db, e);
      && HasPlace(after, u)
      && Within(db.distance, PlaceOf(db, u), PlaceOf(after, u), if InstantMove(db, e, u) then 1.0 else 0.0)
  {
    if e.UpdateLocation? {
      UpdateMove(db, e.user, e.pos, u);
    } else {
      OtherEventsKeepPlaces(db, e, u);
    }
  }

  lemma UpdateMove(db: Db, mover: UserId, pos: Pos, u: UserId)
    requires PlacesOk(db) && HasPlace(db, u) && TriangleInequality(db.distance)
    ensures var after := UpdateLocationTx(db, mover, pos);
      && HasPlace(after, u)
      && Within(db.distance, PlaceOf(db, u), PlaceOf(after, u),
                if InstantMove(db, UpdateLocation(mover, pos), u) then 1.0 else 0.0)
  {
    var place := PlaceOf(db, u);
    if mover == u && Plausible(db, place, pos) {
      SpeedBoundsDistance(db.distance(place.pos, pos), HoursSince(place.since, db.clock));
    }
  }

  lemma OtherEventsKeepPlaces(db: Db, e: Event, u: UserId)
    requires !e.UpdateLocation? && HasPlace(db, u)
    ensures HasPlace(Apply(db, e), u) && PlaceOf(Apply(db, e), u) == PlaceOf(db, u)
  {
    WhoIsUser(db, e, u);
    UntouchedProfiles(db, e);
  }

  lemma PlacesOkStep(db: Db, e: Event)
    requires PlacesOk(db)
    ensures PlacesOk(Apply(db, e))
  {
    UntouchedClock(db, e);
    forall u | HasPlace(Apply(db, e), u)
      ensures PlaceOf(Apply(db, e), u).since <= Apply(db, e).clock
    {
      NewPlace(db, e, u);
    }
  }

  lemma SameDistance(db: Db, e: Event)
    ensures Apply(db, e).distance == db.distance
  {
  }

  lemma NewPlace(db: Db, e: Event, u: UserId)
    requires HasPlace(Apply(db, e), u)
    ensures || PlaceOf(Apply(db, e), u).since == db.clock
            || (HasPlace(db, u) && PlaceOf(Apply(db, e), u) == PlaceOf(db, u))
  {
    UntouchedProfiles(db, e);
    UntouchedUsers(db, e);
  }

  lemma {:induction false} PlacesOkRun(db: Db, es: seq<Event>)
    requires PlacesOk(db)
    ensures PlacesOk(Run(db, es)) && Run(db, es).distance == db.distance
    decreases es
  {
    if es != [] {
      PlacesOkRun(db, es[..|es| - 1]);
      PlacesOkStep(Run(db, es[..|es| - 1]), es[|es| - 1]);
      SameDistance(Run(db, es[..|es| - 1]), es[|es| - 1]);
    }
  }

  lemma {:induction false} TravelBoundFrom(db: Db, es: seq<Event>, u: UserId)
    requires PlacesOk(db) && HasPlace(db, u) && TriangleInequality(db.distance)
    ensures var after := Run(db, es);
      HasPlace(after, u) && Within(db.distance, PlaceOf(db, u), PlaceOf(after, u), InstantMoves(db, es, u) as real)
    decreases es
  {
    if es != [] {
      var front := es[..|es| - 1];
      TravelBoundFrom(db, front, u);
      PlacesOkRun(db, front);
      var last, e := Run(db, front), es[|es| - 1];
      MoveStep(last, e, u);
      WithinTransitive(db.distance, PlaceOf(db, u), PlaceOf(last, u), PlaceOf(Apply(last, e), u),
                       InstantMoves(db, front, u) as real, if InstantMove(last, e, u) then 1.0 else 0.0);
    }
  }

  // Over any run, two stored positions of a user are at most 1000 km apart per hour between the
  // moments they were stored, plus 1 km for each update in between that took no time.
  lemma TravelBound(distance: (Pos, Pos) -> real, start: Time, before: seq<Event>, es: seq<Event>, u: UserId)
    requires TriangleInequality(distance) && HasPlace(History(distance, start, before), u)
    ensures var db := History(distance, start, before);
      var after := Run(db, es);
      && HasPlace(after, u)
      && distance(PlaceOf(db, u).pos, PlaceOf(after, u).pos)
         <= 1000.0 * Hours(PlaceOf(db, u).since, PlaceOf(after, u).since) + InstantMoves(db, es, u) as real
  {
    PlacesOkRun(Empty(distance, start), before);
    TravelBoundFrom(History(distance, start, before), es, u);
  }

  // An update that would be too fast changes nothing but the shadowban flag, and only then is it set.
  lemma RejectedMove(db: Db, u: UserId, pos: Pos)
    requires HasPlace(db, u)
    ensures var after := UpdateLocationTx(db, u, pos);
      && (db.distance(PlaceOf(db, u).pos, pos) > MAX_SPEED * HoursSince(PlaceOf(db, u).since, db.clock) ==>
            after == db.(users := db.users[u := db.users[u].(shadowbanned := true)]))
      && (db.distance(PlaceOf(db, u).pos, pos) <= MAX_SPEED * HoursSince(PlaceOf(db, u).since, db.clock) ==>
            after == db.(profiles := db.profiles[u := db.profiles[u].(place := Some(Place(pos, db.clock)))]))
  {
    var d, hours := db.distance(PlaceOf(db, u).pos, pos), HoursSince(PlaceOf(db, u).since, db.clock);
    SpeedIff(d, hours);
  }

  lemma SpeedIff(d: real, hours: real)
    requires 0.0 < hours
    ensures d / hours <= MAX_SPEED <==> d <= MAX_SPEED * hours
  {
    var speed := d / hours;
    assert d == speed * hours;
    if speed <= MAX_SPEED {
      SpeedBoundsDistance(d, hours);
    } else {
      assert (speed - MAX_SPEED) * hours > 0.0;
    }
  }
}

/**
 UpdateLocation without the serial assumption.  It opens no transaction: it looks whether there is a
 position, takes the time, reads the position again to compute the speed, and writes, each in a
 statement of its own, so the updates of one user can interleave.

 The travel bound survives along the chain of positions that were each checked against the one before.
 So it holds from any moment at which no update is under way, up to time that the stored times went
 back; between two arbitrary positions it does not hold.
 */
module LocationRace {
  import opened Options
  import opened Calendar
  import opened Tables
  import opened LocationRuns

  type UpdateId = nat

  // A stored position with the history of its checks since the beginning of the run: how many took no
  // time, and by how much the stored time went back in all.
  datatype Trace = Trace(place: Place, instants: nat, back: nat)

  // One update: the time it took and the new position, and what it was checked against, once it was.
  datatype Update = Update(now: Time, pos: Pos, checked: Option<Trace>)

  datatype State = State(clock: Time, stored: Trace, updates: map<UpdateId, Update>)

  datatype Step =
    | Tick(elapsed: nat)
    | Begin(t: UpdateId, pos: Pos)   // finds a position and takes the time
    | Check(t: UpdateId)             // reads the position and computes the speed
    | Refuse(t: UpdateId)            // the same, and it was too fast
    | Write(t: UpdateId)

  // The speed gate, at the time the update took.
  predicate PlausibleAt(distance: (Pos, Pos) -> real, place: Place, pos: Pos, now: Time) {
    distance(place.pos, pos) / HoursSince(place.since, now) <= MAX_SPEED
  }

  predicate Enabled(distance: (Pos, Pos) -> real, s: State, step: Step) {
    match step
    case Tick(_) => true
    case Begin(t, _) => t !in s.updates
    case Check(t) =>
      t in s.updates && s.updates[t].checked.None?
      && PlausibleAt(distance, s.stored.place, s.updates[t].pos, s.updates[t].now)
    case Refuse(t) =>
      t in s.updates && s.updates[t].checked.None?
      && !PlausibleAt(distance, s.stored.place, s.updates[t].pos, s.updates[t].now)
    case Write(t) => t in s.updates && s.updates[t].checked.Some?
  }

  // The trace of a position that was checked against this one.
  function Extend(seen: Trace, pos: Pos, now: Time): Trace {
    Trace(Place(pos, now), seen.instants + if now <= seen.place.since then 1 else 0,
          seen.back + if now < seen.place.since then seen.place.since - now else 0)
  }

  // A check of a later time than that of the position it is made against leaves no trace.
  lemma LaterCheck(seen: Trace, pos: Pos, now: Time)
    ensures now > seen.place.since ==> Extend(seen, pos, now) == seen.(place := Place(pos, now))
    ensures now <= seen.place.since ==>
      Extend(seen, pos, now) == Trace(Place(pos, now), seen.instants + 1, seen.back + (seen.place.since - now))
  {
  }

  function Next(distance: (Pos, Pos) -> real, s: State, step: Step): State
    requires Enabled(distance, s, step)
  {
    match step
    case Tick(elapsed) => s.(clock := s.clock + elapsed)
    case Begin(t, pos) => s.(updates := s.updates[t := Update(s.clock, pos, None)])
    case Check(t) => s.(updates := s.updates[t := s.updates[t].(checked := Some(s.stored))])
    case Refuse(t) => s.(updates := s.updates - {t})
    case Write(t) =>
      var u := s.updates[t];
      s.(stored := Extend(u.checked.value, u.pos, u.now), updates := s.updates - {t})
  }

  predicate Runs(distance: (Pos, Pos) -> real, s: State, steps: seq<Step>)
    decreases steps
  {
    steps == [] || (Enabled(distance, s, steps[0]) && Runs(distance, Next(distance, s, steps[0]), steps[1..]))
  }

  function After(distance: (Pos, Pos) -> real, s: State, steps: seq<Step>): State
    requires Runs(distance, s, steps)
    decreases steps
  {
    if steps == [] then s else After(distance, Next(distance, s, steps[0]), steps[1..])
  }

  // The position is within reach of the first one: 1000 km an hour over the time between them and the
  // time that was gone through twice, and 1 km for every check that took no time.
  predicate InReach(distance: (Pos, Pos) -> real, first: Place, tr: Trace) {
    distance(first.pos, tr.place.pos)
    <= 1000.0 * (Hours(first.since, tr.place.since) + Hours(0, tr.back)) + tr.instants as real
  }

  lemma HopInReach(distance: (Pos, Pos) -> real, first: Place, seen: Trace, pos: Pos, now: Time)
    requires TriangleInequality(distance) && InReach(distance, first, seen)
    requires PlausibleAt(distance, seen.place, pos, now)
    ensures InReach(distance, first, Extend(seen, pos, now))
  {
    var hop := distance(seen.place.pos, pos);
    assert distance(first.pos, pos) <= distance(first.pos, seen.place.pos) + hop;
    SpeedBoundsDistance(hop, HoursSince(seen.place.since, now));
    HopTime(first.since, seen.place.since, now, seen.back);
  }

  lemma HopTime(first: Time, since: Time, now: Time, back: nat)
    ensures now > since ==>
              Hours(first, now) + Hours(0, back) == Hours(first, since) + Hours(0, back) + HoursSince(since, now)
    ensures now <= since ==> Hours(first, now) + Hours(0, back + since - now) == Hours(first, since) + Hours(0, back)
  {
  }

  // The stored position and everything an update under way was checked against is within reach.
  ghost predicate AllInReach(distance: (Pos, Pos) -> real, first: Place, s: State) {
    && InReach(distance, first, s.stored)
    && forall t :: t in s.updates && s.updates[t].checked.Some? ==>
         var u := s.updates[t];
         InReach(distance, first, u.checked.value) && PlausibleAt(distance, u.checked.value.place, u.pos, u.now)
  }

  lemma ReachStep(distance: (Pos, Pos) -> real, first: Place, s: State, step: Step)
    requires TriangleInequality(distance) && AllInReach(distance, first, s) && Enabled(distance, s, step)
    ensures AllInReach(distance, first, Next(distance, s, step))
  {
    if step.Write? {
      var u := s.updates[step.t];
      HopInReach(distance, first, u.checked.value, u.pos, u.now);
    }
  }

  lemma {:induction false} ReachRun(distance: (Pos, Pos) -> real, first: Place, s: State, steps: seq<Step>)
    requires TriangleInequality(distance) && AllInReach(distance, first, s) && Runs(distance, s, steps)
    ensures AllInReach(distance, first, After(distance, s, steps))
    decreases steps
  {
    if steps != [] {
      ReachStep(distance, first, s, steps[0]);
      ReachRun(distance, first, Next(distance, s, steps[0]), steps[1..]);
    }
  }

  // However the statements of any number of updates interleave: from a moment at which none is checked
  // and not yet written, every later position is within reach.
  lemma InterleavedBound(distance: (Pos, Pos) -> real, clock: Time, first: Place, updates: map<UpdateId, Update>,
                         steps: seq<Step>)
    requires TriangleInequality(distance) && forall t :: t in updates ==> updates[t].checked.None?
    requires Runs(distance, State(clock, Trace(first, 0, 0), updates), steps)
    ensures InReach(distance, first, After(distance, State(clock, Trace(first, 0, 0), updates), steps).stored)
  {
    ReachRun(distance, first, State(clock, Trace(first, 0, 0), updates), steps);
  }

  // ----- Between two arbitrary positions -----

  function Apart(p: Pos, q: Pos): real {
    if p.lat <= q.lat then q.lat - p.lat else p.lat - q.lat
  }

  lemma Single(s: State, step: Step)
    requires Enabled(Apart, s, step)
    ensures Runs(Apart, s, [step]) && After(Apart, s, [step]) == Next(Apart, s, step)
  {
    assert [step][1..] == [];
    assert After(Apart, Next(Apart, s, step), []) == Next(Apart, s, step);
  }

  lemma Prepend(s: State, step: Step, rest: seq<Step>) returns (steps: seq<Step>)
    requires Enabled(Apart, s, step) && Runs(Apart, Next(Apart, s, step), rest)
    ensures Runs(Apart, s, steps) && After(Apart, s, steps) == After(Apart, Next(Apart, s, step), rest)
  {
    steps := [step] + rest;
    assert steps[1..] == rest;
  }

  lemma Checks(s: State, t: UpdateId)
    requires t in s.updates && s.updates[t].checked.None? && s.updates[t].now == HOUR
    requires s.stored.place == Place(Pos(0.0, 0.0), 0)
    requires s.updates[t].pos in [Pos(1000.0, 0.0), Pos(-1000.0, 0.0)]
    ensures Enabled(Apart, s, Check(t))
    ensures Next(Apart, s, Check(t)) == s.(updates := s.updates[t := s.updates[t].(checked := Some(s.stored))])
  {
    assert HoursSince(0, HOUR) == 1.0;
  }

  lemma ApartIsDistance()
    ensures TriangleInequality(Apart)
  {
  }

  // Two updates checked against the same position move in opposite directions, and the second position
  // replaces the first at the same time, 2000 km away.
  lemma SiblingsOutOfReach() returns (s: State, before: seq<Step>, write: Step)
    ensures TriangleInequality(Apart) && s.updates == map[] && Runs(Apart, s, before)
    ensures Enabled(Apart, After(Apart, s, before), write)
    ensures var mid := After(Apart, s, before).stored.place;
      var end := Next(Apart, After(Apart, s, before), write).stored.place;
      mid.since == end.since && Apart(mid.pos, end.pos) == 2000.0
  {
    ApartIsDistance();
    var home, there, back := Trace(Place(Pos(0.0, 0.0), 0), 0, 0), Pos(1000.0, 0.0), Pos(-1000.0, 0.0);
    s := State(HOUR, home, map[]);
    var s1 := Next(Apart, s, Begin(1, there));
    var s2 := Next(Apart, s1, Begin(2, back));
    assert s2 == State(HOUR, home, map[1 := Update(HOUR, there, None), 2 := Update(HOUR, back, None)]);
    Checks(s2, 1);
    var s3 := Next(Apart, s2, Check(1));
    Checks(s3, 2);
    var s4 := Next(Apart, s3, Check(2));
    Single(s4, Write(1));
    before := Prepend(s3, Check(2), [Write(1)]);
    before := Prepend(s2, Check(1), before);
    before := Prepend(s1, Begin(2, back), before);
    before := Prepend(s, Begin(1, there), before);
    write := Write(2);
  }
}

/**
 What the hub does as a function of the steps of a run alone: who is registered, which messages each
 channel accepts and which users are to be dropped.  It is written without the channels of the hub, and
 the hub is proved to agree with it in every run.
 */
module HubHistory {
  import opened Hub

  // registry: the client each user is registered with; owner: the user of every client there ever was;
  // accepted: the messages for each client that found room, in order; taken: how many of them its
  // writer has received; dropping: the users whose unregister has been spawned and not run.
  datatype Record = Record(registry: map<UserId, ClientId>, owner: map<ClientId, UserId>,
                           accepted: map<ClientId, seq<Bytes>>, taken: map<ClientId, nat>,
                           dropping: multiset<UserId>)

  const NOTHING: Record := Record(map[], map[], map[], map[], multiset{})

  // The client's channel holds fewer than 256 messages.
  predicate HasRoom(o: Record, c: ClientId) {
    c in o.accepted && c in o.taken && |o.accepted[c]| - o.taken[c] < 256
  }

  function Note(o: Record, step: Step): Record {
    match step
    case Connect(c, user) =>
      Record(o.registry[user := c], o.owner[c := user], o.accepted[c := []], o.taken[c := 0], o.dropping)
    case Push(user, message) =>
      if user !in o.registry then o
      else
        var c := o.registry[user];
        if HasRoom(o, c) then o.(accepted := o.accepted[c := o.accepted[c] + [message]])
        else o.(dropping := o.dropping + multiset{user})
    case ReaderEnds(c) => if c in o.owner then o.(registry := o.registry - {o.owner[c]}) else o
    case Spawned(user) => o.(registry := o.registry - {user}, dropping := o.dropping - multiset{user})
    case WriterTakes(c, _) => if c in o.taken then o.(taken := o.taken[c := o.taken[c] + 1]) else o
    case WriterPings(_, _) => o
    case WriterCloses(_) => o
  }

  function Story(o: Record, steps: seq<Step>): Record
    decreases steps
  {
    if steps == [] then o else Story(Note(o, steps[0]), steps[1..])
  }

  // One channel: its user, what it accepted, how much of it was taken, and whether it is still open.
  ghost predicate ChannelAgrees(o: Record, c: ClientId, ch: Channel) {
    && c in o.owner && c in o.accepted && c in o.taken
    && ch.user == o.owner[c]
    && ch.taken + ch.buffer == o.accepted[c] && |ch.taken| == o.taken[c]
    && (ch.closed <==> !(ch.user in o.registry && o.registry[ch.user] == c))
  }

  ghost predicate Agrees(w: World, o: Record) {
    && w.hub.clients == o.registry && w.unregisters == o.dropping
    && (forall c :: c in o.owner ==> c in w.hub.channels)
    && (forall c :: c in w.hub.channels ==> ChannelAgrees(o, c, w.hub.channels[c]))
  }

  lemma ConnectAgrees(w: World, o: Record, c: ClientId, user: UserId)
    requires Inv(w) && Agrees(w, o) && Enabled(w, Connect(c, user))
    ensures Agrees(Next(w, Connect(c, user)), Note(o, Connect(c, user)))
  {
    var w', o' := Next(w, Connect(c, user)), Note(o, Connect(c, user));
    forall d | d in w'.hub.channels
      ensures ChannelAgrees(o', d, w'.hub.channels[d])
    {
      assert d != c ==> ChannelAgrees(o, d, w.hub.channels[d]);
    }
  }

  lemma PushAgrees(w: World, o: Record, user: UserId, message: Bytes)
    requires Inv(w) && Agrees(w, o)
    ensures Agrees(Next(w, Push(user, message)), Note(o, Push(user, message)))
  {
    var w', o' := Next(w, Push(user, message)), Note(o, Push(user, message));
    if user in w.hub.clients {
      assert ChannelAgrees(o, w.hub.clients[user], w.hub.channels[w.hub.clients[user]]);
    }
    forall d | d in w'.hub.channels
      ensures ChannelAgrees(o', d, w'.hub.channels[d])
    {
      assert ChannelAgrees(o, d, w.hub.channels[d]);
    }
  }

  // Dropping a user closes the user's channel and no other.
  lemma DropAgrees(w: World, o: Record, user: UserId, d: ClientId)
    requires Inv(w) && Agrees(w, o) && d in w.hub.channels
    ensures d in UnregisterUser(w.hub, user).channels
    ensures ChannelAgrees(o.(registry := o.registry - {user}), d, UnregisterUser(w.hub, user).channels[d])
  {
    assert ChannelAgrees(o, d, w.hub.channels[d]);
    if user in w.hub.clients {
      assert ChannelAgrees(o, w.hub.clients[user], w.hub.channels[w.hub.clients[user]]);
    }
  }

  lemma UnregisterAgrees(w: World, o: Record, step: Step)
    requires Inv(w) && Agrees(w, o) && Enabled(w, step) && (step.ReaderEnds? || step.Spawned?)
    ensures Agrees(Next(w, step), Note(o, step))
  {
    var user := if step.ReaderEnds? then w.hub.channels[step.c].user else step.user;
    if step.ReaderEnds? {
      assert ChannelAgrees(o, step.c, w.hub.channels[step.c]);
    }
    assert Next(w, step).hub == UnregisterUser(w.hub, user);
    assert Note(o, step) == o.(registry := o.registry - {user}, dropping := Note(o, step).dropping);
    forall d | d in w.hub.channels
      ensures ChannelAgrees(Note(o, step), d, UnregisterUser(w.hub, user).channels[d])
    {
      DropAgrees(w, o, user, d);
    }
  }

  lemma TakeAgrees(w: World, o: Record, c: ClientId, ok: bool)
    requires Inv(w) && Agrees(w, o) && Enabled(w, WriterTakes(c, ok))
    ensures Agrees(Next(w, WriterTakes(c, ok)), Note(o, WriterTakes(c, ok)))
  {
    var o' := Note(o, WriterTakes(c, ok));
    var ch := w.hub.channels[c];
    assert ChannelAgrees(o, c, ch) && ch.buffer == [ch.buffer[0]] + ch.buffer[1..];
    assert ChannelAgrees(o', c, Receive(ch));
    forall d | d in w.hub.channels && d != c
      ensures ChannelAgrees(o', d, w.hub.channels[d])
    {
      assert ChannelAgrees(o, d, w.hub.channels[d]);
    }
  }

  lemma AgreesStep(w: World, o: Record, step: Step)
    requires Inv(w) && Agrees(w, o) && Enabled(w, step)
    ensures Agrees(Next(w, step), Note(o, step))
  {
    match step
    case Connect(c, user) => ConnectAgrees(w, o, c, user);
    case Push(user, message) => PushAgrees(w, o, user, message);
    case ReaderEnds(_) => UnregisterAgrees(w, o, step);
    case Spawned(_) => UnregisterAgrees(w, o, step);
    case WriterTakes(c, ok) => TakeAgrees(w, o, c, ok);
    case WriterPings(_, _) =>
    case WriterCloses(_) =>
  }

  lemma {:induction false} AgreesRun(w: World, o: Record, steps: seq<Step>)
    requires Inv(w) && Agrees(w, o) && Runs(w, steps)
    ensures Agrees(After(w, steps), Story(o, steps))
    decreases steps
  {
    if steps != [] {
      StepKeeps(w, steps[0]);
      AgreesStep(w, o, steps[0]);
      AgreesRun(Next(w, steps[0]), Note(o, steps[0]), steps[1..]);
    }
  }

  // In every run: the map is what the connects, disconnects and drops make of it, a channel is open
  // exactly while its client is registered, and a drop is under way exactly for each message that found
  // no room and has not been followed by it.
  lemma RegisteredByHistory(steps: seq<Step>)
    requires Runs(START, steps)
    ensures var end, o := After(START, steps), Story(NOTHING, steps);
      && end.hub.clients == o.registry && end.unregisters == o.dropping
      && forall c :: c in end.hub.channels ==>
           && c in o.owner && end.hub.channels[c].user == o.owner[c]
           && (end.hub.channels[c].closed <==> !(o.owner[c] in o.registry && o.registry[o.owner[c]] == c))
  {
    AgreesRun(START, NOTHING, steps);
    assert forall c :: c in After(START, steps).hub.channels ==>
        ChannelAgrees(Story(NOTHING, steps), c, After(START, steps).hub.channels[c]);
  }

  // And what a writer has taken followed by what it still has to take is exactly what was pushed to the
  // user while the client was registered and had fewer than 256 messages waiting, in that order.
  lemma DeliveredByHistory(steps: seq<Step>, c: ClientId)
    requires Runs(START, steps) && c in After(START, steps).hub.channels
    ensures var ch, o := After(START, steps).hub.channels[c], Story(NOTHING, steps);
      c in o.accepted && c in o.taken && ch.taken + ch.buffer == o.accepted[c] && |ch.taken| == o.taken[c]
  {
    AgreesRun(START, NOTHING, steps);
    assert ChannelAgrees(Story(NOTHING, steps), c, After(START, steps).hub.channels[c]);
  }
}

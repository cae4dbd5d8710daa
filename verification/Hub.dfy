/**
 The WebSocket hub: one map from users to clients, one bounded channel per client.  Every method runs
 under the hub's lock, so a method is one step of the interleaving; so is one receive of a writer.

 Closing a closed channel and sending on a closed channel panic in Go; Panics says which steps would
 do so, and NoStepPanics that no run ever takes one.
 */
module Hub {
  type UserId = nat
  type ClientId = nat
  type Bytes = seq<bv8>

  const CAPACITY: nat := 256

  // A client's channel.  sent: everything the channel ever accepted; taken: what its writer received.
  datatype Channel = Channel(user: UserId, buffer: seq<Bytes>, closed: bool, sent: seq<Bytes>, taken: seq<Bytes>)

  // clients: the hub's map; channels: every client that was ever registered, by identity.
  datatype HubState = HubState(clients: map<UserId, ClientId>, channels: map<ClientId, Channel>)

  // ----- Channels -----

  function CloseChannel(ch: Channel): Channel {
    ch.(closed := true)
  }

  predicate Full(ch: Channel) {
    |ch.buffer| >= CAPACITY
  }

  function Send(ch: Channel, message: Bytes): Channel {
    ch.(buffer := ch.buffer + [message], sent := ch.sent + [message])
  }

  // A receive takes the oldest message, from a closed channel as well while there is one.
  function Receive(ch: Channel): Channel
    requires ch.buffer != []
  {
    ch.(buffer := ch.buffer[1..], taken := ch.taken + [ch.buffer[0]])
  }

  // What a channel accepted is what its writer took followed by what it still holds, in order.
  ghost predicate Fifo(ch: Channel) {
    ch.sent == ch.taken + ch.buffer && |ch.buffer| <= CAPACITY
  }

  // ----- The hub -----

  predicate Registered(s: HubState, c: ClientId) {
    c in s.channels && s.channels[c].user in s.clients && s.clients[s.channels[c].user] == c
  }

  predicate Open(s: HubState, c: ClientId) {
    c in s.channels && !s.channels[c].closed
  }

  // A client that was ever registered has an open channel exactly when the map still points to it.
  ghost predicate Consistent(s: HubState) {
    && (forall u :: u in s.clients ==> s.clients[u] in s.channels && s.channels[s.clients[u]].user == u)
    && (forall c :: c in s.channels ==> (!s.channels[c].closed <==> Registered(s, c)))
    && (forall c :: c in s.channels ==> Fifo(s.channels[c]))
  }

  // The client the map points to for this user.
  predicate Has(s: HubState, user: UserId) {
    user in s.clients && s.clients[user] in s.channels
  }

  function ChannelOf(s: HubState, user: UserId): Channel
    requires Has(s, user)
  {
    s.channels[s.clients[user]]
  }

  function RegisterClient(s: HubState, c: ClientId, user: UserId): HubState {
    var channels := if Has(s, user) then s.channels[s.clients[user] := CloseChannel(ChannelOf(s, user))]
                    else s.channels;
    HubState(s.clients[user := c], channels[c := Channel(user, [], false, [], [])])
  }

  function UnregisterUser(s: HubState, user: UserId): HubState {
    if !Has(s, user) then s
    else HubState(s.clients - {user}, s.channels[s.clients[user] := CloseChannel(ChannelOf(s, user))])
  }

  // The message does not fit; the client will be dropped by an unregister that runs later.
  predicate Overflows(s: HubState, user: UserId) {
    Has(s, user) && Full(ChannelOf(s, user))
  }

  function SendTo(s: HubState, user: UserId, message: Bytes): HubState {
    if !Has(s, user) || Overflows(s, user) then s
    else s.(channels := s.channels[s.clients[user] := Send(ChannelOf(s, user), message)])
  }

  function Take(s: HubState, c: ClientId): HubState
    requires c in s.channels && s.channels[c].buffer != []
  {
    s.(channels := s.channels[c := Receive(s.channels[c])])
  }

  class WsHub {
    var clients: map<UserId, ClientId>
    var channels: map<ClientId, Channel>

    function State(): HubState
      reads this
    {
      HubState(clients, channels)
    }

    constructor ()
      ensures State() == HubState(map[], map[])
    {
      clients, channels := map[], map[];
    }

    // close(ch) in Go panics unless the channel is open.
    method Close(c: ClientId)
      requires c in channels && !channels[c].closed
      modifies this`channels
      ensures channels == old(channels)[c := CloseChannel(old(channels[c]))]
    {
      channels := channels[c := channels[c].(closed := true)];
    }

    // A new client takes the place of the one before it, whose channel is closed.
    method Register(c: ClientId, user: UserId)
      requires Consistent(State()) && c !in channels
      modifies this
      ensures State() == RegisterClient(old(State()), c, user)
    {
      channels := channels[c := Channel(user, [], false, [], [])];
      if user in clients {
        Close(clients[user]);
      }
      clients := clients[user := c];
      assert channels == RegisterClient(old(State()), c, user).channels;
    }

    method Unregister(user: UserId)
      requires Consistent(State())
      modifies this
      ensures State() == UnregisterUser(old(State()), user)
    {
      if user in clients {
        var c := clients[user];
        clients := clients - {user};
        Close(c);
      }
    }

    // Never blocks: a full channel makes the caller spawn an unregister instead.
    method SendToUser(user: UserId, message: Bytes) returns (spawned: bool)
      requires Consistent(State())
      modifies this`channels
      ensures State() == SendTo(old(State()), user, message)
      ensures spawned <==> user in clients && |old(channels)[clients[user]].buffer| >= 256
      ensures user in clients && !spawned ==>
        channels[clients[user]].buffer == old(channels)[clients[user]].buffer + [message]
    {
      spawned := false;
      if user in clients {
        var c := clients[user];
        if |channels[c].buffer| < CAPACITY {
          channels := channels[c := Send(channels[c], message)];
        } else {
          spawned := true;
        }
      }
    }

    // writePump once the channel is closed and nothing fails: it writes out what is left and then
    // the close frame.
    method DrainClosed(c: ClientId) returns (written: seq<Bytes>)
      requires c in channels && channels[c].closed && Fifo(channels[c])
      modifies this`channels
      ensures written == old(channels[c].buffer)
      ensures c in channels && channels[c].buffer == []
      ensures channels[c].taken == channels[c].sent == old(channels[c].sent)
      ensures forall d :: d in old(channels) && d != c ==> d in channels && channels[d] == old(channels[d])
    {
      written := [];
      while channels[c].buffer != []
        invariant c in channels && channels[c].closed && Fifo(channels[c])
        invariant channels[c].sent == old(channels[c].sent)
        invariant written + channels[c].buffer == old(channels[c].buffer)
        invariant forall d :: d in old(channels) && d != c ==> d in channels && channels[d] == old(channels[d])
        decreases |channels[c].buffer|
      {
        written := written + [channels[c].buffer[0]];
        channels := channels[c := Receive(channels[c])];
      }
    }
  }

  // ----- The connections around the hub -----

  datatype Writer = Writing | ClosedFrameSent | Failed

  // readers: connections whose readPump still runs; unregisters: spawned unregisters not yet run.
  datatype World = World(hub: HubState, readers: set<ClientId>, writers: map<ClientId, Writer>,
                         unregisters: multiset<UserId>)

  datatype Step =
    | Connect(c: ClientId, user: UserId)          // ServeWS registers a new client and starts its pumps
    | Push(user: UserId, message: Bytes)          // a handler, or an echoing readPump, sends
    | ReaderEnds(c: ClientId)                     // readPump fails to read and unregisters its user
    | Spawned(user: UserId)                       // a spawned unregister gets its turn
    | WriterTakes(c: ClientId, ok: bool)          // writePump receives a message and writes it, or fails to
    | WriterPings(c: ClientId, ok: bool)
    | WriterCloses(c: ClientId)                   // writePump finds the channel closed and empty

  predicate Enabled(w: World, step: Step) {
    match step
    case Connect(c, _) => c !in w.hub.channels && c !in w.writers
    case Push(_, _) => true
    case ReaderEnds(c) => c in w.readers && c in w.hub.channels
    case Spawned(user) => user in w.unregisters
    case WriterTakes(c, _) => Running(w, c) && w.hub.channels[c].buffer != []
    case WriterPings(c, _) => Running(w, c)
    case WriterCloses(c) => Running(w, c) && w.hub.channels[c].buffer == [] && w.hub.channels[c].closed
  }

  predicate Running(w: World, c: ClientId) {
    c in w.hub.channels && c in w.writers && w.writers[c] == Writing
  }

  function Next(w: World, step: Step): World
    requires Enabled(w, step)
  {
    match step
    case Connect(c, user) =>
      w.(hub := RegisterClient(w.hub, c, user), readers := w.readers + {c}, writers := w.writers[c := Writing])
    case Push(user, message) =>
      w.(hub := SendTo(w.hub, user, message),
         unregisters := if Overflows(w.hub, user) then w.unregisters + multiset{user} else w.unregisters)
    case ReaderEnds(c) =>
      w.(hub := UnregisterUser(w.hub, w.hub.channels[c].user), readers := w.readers - {c})
    case Spawned(user) =>
      w.(hub := UnregisterUser(w.hub, user), unregisters := w.unregisters - multiset{user})
    case WriterTakes(c, ok) =>
      w.(hub := Take(w.hub, c), writers := if ok then w.writers else w.writers[c := Failed])
    case WriterPings(c, ok) =>
      if ok then w else w.(writers := w.writers[c := Failed])
    case WriterCloses(c) =>
      w.(writers := w.writers[c := ClosedFrameSent])
  }

  // The step would close a closed channel, or send on one.
  predicate Panics(w: World, step: Step)
    requires Enabled(w, step)
  {
    match step
    case Connect(_, user) => Has(w.hub, user) && ChannelOf(w.hub, user).closed
    case Push(user, _) => Has(w.hub, user) && ChannelOf(w.hub, user).closed
    case ReaderEnds(c) => var user := w.hub.channels[c].user; Has(w.hub, user) && ChannelOf(w.hub, user).closed
    case Spawned(user) => Has(w.hub, user) && ChannelOf(w.hub, user).closed
    case _ => false
  }

  // ----- Every run -----

  lemma RegisterKeeps(s: HubState, c: ClientId, user: UserId)
    requires Consistent(s) && c !in s.channels
    ensures Consistent(RegisterClient(s, c, user))
  {
    var after := RegisterClient(s, c, user);
    forall d | d in after.channels
      ensures !after.channels[d].closed <==> Registered(after, d)
    {
      if d != c {
        assert !s.channels[d].closed <==> Registered(s, d);
      }
    }
  }

  lemma UnregisterKeeps(s: HubState, user: UserId)
    requires Consistent(s)
    ensures Consistent(UnregisterUser(s, user))
  {
    var after := UnregisterUser(s, user);
    forall d | d in after.channels
      ensures !after.channels[d].closed <==> Registered(after, d)
    {
      assert !s.channels[d].closed <==> Registered(s, d);
    }
  }

  lemma SendKeeps(s: HubState, user: UserId, message: Bytes)
    requires Consistent(s)
    ensures Consistent(SendTo(s, user, message))
  {
    var after := SendTo(s, user, message);
    forall d | d in after.channels
      ensures !after.channels[d].closed <==> Registered(after, d)
    {
      assert !s.channels[d].closed <==> Registered(s, d);
    }
  }

  lemma TakeKeeps(s: HubState, c: ClientId)
    requires Consistent(s) && c in s.channels && s.channels[c].buffer != []
    ensures Consistent(Take(s, c))
  {
    var after := Take(s, c);
    forall d | d in after.channels
      ensures !after.channels[d].closed <==> Registered(after, d)
    {
      assert !s.channels[d].closed <==> Registered(s, d);
    }
  }

  // Besides the hub: whoever got a close frame had been sent everything its channel ever accepted.
  ghost predicate Inv(w: World) {
    && Consistent(w.hub)
    && (forall c :: c in w.writers ==> c in w.hub.channels)
    && (forall c :: c in w.writers && w.writers[c] == ClosedFrameSent ==>
          w.hub.channels[c].closed && w.hub.channels[c].taken == w.hub.channels[c].sent)
  }

  lemma HubStepKeeps(w: World, step: Step)
    requires Inv(w) && Enabled(w, step)
    ensures Consistent(Next(w, step).hub)
  {
    match step
    case Connect(c, user) => RegisterKeeps(w.hub, c, user);
    case Push(user, message) => SendKeeps(w.hub, user, message);
    case ReaderEnds(c) => UnregisterKeeps(w.hub, w.hub.channels[c].user);
    case Spawned(user) => UnregisterKeeps(w.hub, user);
    case WriterTakes(c, _) => TakeKeeps(w.hub, c);
    case WriterPings(_, _) =>
    case WriterCloses(_) =>
  }

  lemma StepKeeps(w: World, step: Step)
    requires Inv(w) && Enabled(w, step)
    ensures Inv(Next(w, step))
  {
    HubStepKeeps(w, step);
    var after := Next(w, step);
    forall c | c in after.writers
      ensures c in after.hub.channels
      ensures after.writers[c] == ClosedFrameSent ==>
        after.hub.channels[c].closed && after.hub.channels[c].taken == after.hub.channels[c].sent
    {
      if c in w.writers && w.hub.channels[c].closed {
        assert Fifo(w.hub.channels[c]);
        ClosedStep(w, step, c);
      }
    }
  }

  const START: World := World(HubState(map[], map[]), {}, map[], multiset{})

  // Every step of the sequence is enabled when its turn comes.
  predicate Runs(w: World, steps: seq<Step>)
    decreases steps
  {
    steps == [] || (Enabled(w, steps[0]) && Runs(Next(w, steps[0]), steps[1..]))
  }

  function After(w: World, steps: seq<Step>): World
    requires Runs(w, steps)
    decreases steps
  {
    if steps == [] then w else After(Next(w, steps[0]), steps[1..])
  }

  lemma {:induction false} RunKeeps(w: World, steps: seq<Step>)
    requires Inv(w) && Runs(w, steps)
    ensures Inv(After(w, steps))
    decreases steps
  {
    if steps != [] {
      StepKeeps(w, steps[0]);
      RunKeeps(Next(w, steps[0]), steps[1..]);
    }
  }

  // In every run, re-registrations and late unregisters included, a client's channel is open exactly
  // when the map points to the client, so each user has at most one open client.
  lemma OpenMeansRegistered(steps: seq<Step>)
    requires Runs(START, steps)
    ensures var hub := After(START, steps).hub;
      && (forall c :: c in hub.channels ==> (!hub.channels[c].closed <==> Registered(hub, c)))
      && (forall c, d :: Open(hub, c) && Open(hub, d) && hub.channels[c].user == hub.channels[d].user ==> c == d)
  {
    RunKeeps(START, steps);
  }

  // So whatever comes next, no channel is closed twice and none is sent to after it was closed.
  lemma NoStepPanics(steps: seq<Step>, step: Step)
    requires Runs(START, steps) && Enabled(After(START, steps), step)
    ensures !Panics(After(START, steps), step)
  {
    RunKeeps(START, steps);
    var hub := After(START, steps).hub;
    assert forall u :: u in hub.clients ==> Registered(hub, hub.clients[u]);
  }

  // In every run, each writer takes what its channel accepted, in order and without gaps, and has
  // taken all of it by the time it sends the close frame.
  lemma DeliveredInOrder(steps: seq<Step>, c: ClientId)
    requires Runs(START, steps) && c in After(START, steps).hub.channels
    ensures var end := After(START, steps); var ch := end.hub.channels[c];
      && ch.sent == ch.taken + ch.buffer && |ch.buffer| <= 256
      && (c in end.writers && end.writers[c] == ClosedFrameSent ==> ch.taken == ch.sent)
  {
    RunKeeps(START, steps);
    assert Fifo(After(START, steps).hub.channels[c]);
  }

  // A closed channel stays closed and accepts nothing more, and every receive shortens what is left,
  // so a writer that does not fail gets to its close frame.
  lemma ClosedStep(w: World, step: Step, c: ClientId)
    requires Inv(w) && Enabled(w, step) && c in w.hub.channels && w.hub.channels[c].closed
    ensures var ch, after := w.hub.channels[c], Next(w, step).hub;
      && c in after.channels && after.channels[c].closed && after.channels[c].sent == ch.sent
      && (step.WriterTakes? && step.c == c ==> |after.channels[c].buffer| == |ch.buffer| - 1)
      && (!(step.WriterTakes? && step.c == c) ==> after.channels[c] == ch)
  {
    assert !Registered(w.hub, c);
    assert forall u :: Has(w.hub, u) ==> w.hub.clients[u] != c;
  }

  // How many messages a writer takes in a run.
  function Takes(steps: seq<Step>, c: ClientId): nat
    decreases steps
  {
    if steps == [] then 0
    else Takes(steps[1..], c) + if steps[0].WriterTakes? && steps[0].c == c then 1 else 0
  }

  // Whatever else happens: from the moment its channel is closed a writer takes no more than what was
  // left then, and one that has taken that many and has not failed can only send the close frame.
  lemma {:induction false} TakesWhatIsLeft(w: World, steps: seq<Step>, c: ClientId)
    requires Inv(w) && Runs(w, steps) && c in w.hub.channels && w.hub.channels[c].closed
    ensures var end := After(w, steps);
      && c in end.hub.channels && end.hub.channels[c].closed
      && |end.hub.channels[c].buffer| == |w.hub.channels[c].buffer| - Takes(steps, c)
      && (Running(end, c) && Takes(steps, c) == |w.hub.channels[c].buffer| ==>
            Enabled(end, WriterCloses(c)) && forall ok :: !Enabled(end, WriterTakes(c, ok)))
      && (Running(end, c) && Takes(steps, c) < |w.hub.channels[c].buffer| ==>
            Enabled(end, WriterTakes(c, true)) && !Enabled(end, WriterCloses(c)))
    decreases steps
  {
    if steps != [] {
      StepKeeps(w, steps[0]);
      ClosedStep(w, steps[0], c);
      TakesWhatIsLeft(Next(w, steps[0]), steps[1..], c);
    }
  }

  // The run of a writer that finds its channel closed: it takes what is left, then closes.
  lemma {:induction false} WriterDrains(w: World, c: ClientId) returns (steps: seq<Step>)
    requires Inv(w) && Running(w, c) && w.hub.channels[c].closed
    ensures Runs(w, steps) && |steps| == |w.hub.channels[c].buffer| + 1
    ensures c in After(w, steps).writers && After(w, steps).writers[c] == ClosedFrameSent
    ensures c in After(w, steps).hub.channels && After(w, steps).hub.channels[c].taken == w.hub.channels[c].sent
    decreases |w.hub.channels[c].buffer|
  {
    var step := if w.hub.channels[c].buffer == [] then WriterCloses(c) else WriterTakes(c, true);
    if step.WriterCloses? {
      assert Fifo(w.hub.channels[c]);
      steps := [step];
      assert steps[1..] == [];
    } else {
      StepKeeps(w, step);
      ClosedStep(w, step, c);
      var rest := WriterDrains(Next(w, step), c);
      steps := [step] + rest;
      assert steps[1..] == rest;
    }
  }
}

/**
 Which acceptances of one status can still commit: the exact conditions under which a second one
 follows a first, one commits on a status that a block has closed, and one commits without another
 being aborted; with the runs in which these things happen.
 */
module AcceptOutcomes {
  import opened Options
  import opened Requests
  import opened AcceptProtocol

  // ----- Building runs -----

  lemma {:induction false} Append(s: State, steps: seq<Step>, more: seq<Step>)
    requires Runs(s, steps) && Runs(After(s, steps), more)
    ensures Runs(s, steps + more) && After(s, steps + more) == After(After(s, steps), more)
    decreases steps
  {
    if steps == [] {
      assert steps + more == more;
    } else {
      Append(Next(s, steps[0]), steps[1..], more);
      assert (steps + more)[1..] == steps[1..] + more;
    }
  }

  predicate NoRejoins(steps: seq<Step>) {
    forall step :: step in steps ==> !step.Rejoin?
  }

  predicate NoAborts(steps: seq<Step>) {
    forall step :: step in steps ==> !step.Abort?
  }

  lemma Single(s: State, step: Step)
    requires Enabled(s, step)
    ensures Runs(s, [step]) && After(s, [step]) == Next(s, step)
  {
    assert [step][1..] == [];
    assert Runs(Next(s, step), []) && After(Next(s, step), []) == Next(s, step);
  }

  lemma One(s: State, steps: seq<Step>, step: Step) returns (longer: seq<Step>)
    requires Runs(s, steps) && Enabled(After(s, steps), step)
    ensures Runs(s, longer) && After(s, longer) == Next(After(s, steps), step)
    ensures NoRejoins(steps) && !step.Rejoin? ==> NoRejoins(longer)
    ensures NoAborts(steps) && !step.Abort? ==> NoAborts(longer)
  {
    Single(After(s, steps), step);
    Append(s, steps, [step]);
    longer := steps + [step];
  }

  predicate NoLocks(s: State) {
    s.db.rowLocks == map[] && s.db.statusLock.None?
  }

  // The map with one value for all of these rows.
  function PutAll<V>(m: map<RequestId, V>, todo: set<RequestId>, v: V): map<RequestId, V> {
    m + map q | q in todo :: v
  }

  // The state in which a rejecting transaction has visited the rows it still had to visit.
  function AllRejected(s: State, t: TxId): State
    requires t in s.txs && s.txs[t].pc.Rejecting?
  {
    var tx := s.txs[t];
    State(s.db.(rowLocks := PutAll(s.db.rowLocks, tx.pc.todo, t)),
          s.txs[t := tx.(pc := Rejecting({}), writes := PutAll(tx.writes, tx.pc.todo, Rejected))])
  }

  lemma OneRejected(s: State, t: TxId, r: RequestId)
    requires Enabled(s, RejectRow(t, r)) && IsPending(s.db, r)
    ensures AllRejected(Next(s, RejectRow(t, r)), t) == AllRejected(s, t)
  {
    var tx := s.txs[t];
    OneOfMany(tx.writes, tx.pc.todo, r, Rejected);
    OneOfMany(s.db.rowLocks, tx.pc.todo, r, t);
  }

  lemma OneOfMany<V>(m: map<RequestId, V>, todo: set<RequestId>, r: RequestId, v: V)
    requires r in todo
    ensures PutAll(m[r := v], todo - {r}, v) == PutAll(m, todo, v)
  {
  }

  // Rejecting works through its rows when nobody else holds them.
  lemma {:induction false} RejectAll(s: State, t: TxId) returns (steps: seq<Step>)
    requires t in s.txs && s.txs[t].pc.Rejecting?
    requires forall r :: r in s.txs[t].pc.todo ==> r !in s.db.rowLocks && IsPending(s.db, r)
    ensures Runs(s, steps) && After(s, steps) == AllRejected(s, t)
    decreases s.txs[t].pc.todo
  {
    if s.txs[t].pc.todo == {} {
      steps := [];
      var tx := s.txs[t];
      assert PutAll(tx.writes, {}, Rejected) == tx.writes && PutAll(s.db.rowLocks, {}, t) == s.db.rowLocks;
      assert tx.(pc := Rejecting({})) == tx && s.txs[t := tx] == s.txs;
    } else {
      var r :| r in s.txs[t].pc.todo;
      var rest := RejectAll(Next(s, RejectRow(t, r)), t);
      OneRejected(s, t, r);
      steps := [RejectRow(t, r)] + rest;
      assert steps[1..] == rest;
    }
  }

  // A transaction past its first look at a pending request commits when it runs on alone, whatever
  // the status flag says by then: none of its later statements reads the flag again.
  lemma AloneCommits(s: State, t: TxId) returns (steps: seq<Step>)
    requires NoLocks(s) && At(s, t, Found) && IsPending(s.db, s.txs[t].request) && s.txs[t].writes == map[]
    ensures Runs(s, steps) && NoLocks(After(s, steps))
    ensures forall u :: u in After(s, steps).txs <==> u in s.txs
    ensures forall u :: u in s.txs && u != t ==> After(s, steps).txs[u] == s.txs[u]
    ensures At(After(s, steps), t, Committed)
    ensures After(s, steps).db == s.db.(rows := Decide(s.db.rows, s.txs[t].request), active := false,
                                        commits := s.db.commits + [t])
  {
    steps := RunsToRejected(s, t);
    var done := After(s, steps);
    WritesDecide(s.db, s.txs[t].request);
    var finish := Finishes(done, t);
    Append(s, steps, finish);
    steps := steps + finish;
  }

  // Everything up to the point where all rows are visited.
  lemma RunsToRejected(s: State, t: TxId) returns (steps: seq<Step>)
    requires NoLocks(s) && At(s, t, Found) && IsPending(s.db, s.txs[t].request) && s.txs[t].writes == map[]
    ensures Runs(s, steps)
    ensures var r, done := s.txs[t].request, After(s, steps);
      && At(done, t, Rejecting({})) && done.db.statusLock == Some(t)
      && (forall q :: q in done.db.rowLocks ==> LockedBy(done.db, q, t))
      && done.txs == s.txs[t := Tx(r, s.txs[t].caller, Rejecting({}), DecidingWrites(s.db, r))]
      && done.db == s.db.(rowLocks := done.db.rowLocks, statusLock := Some(t))
  {
    steps := GoesToRejecting(s, t);
    var mid := After(s, steps);
    var rejects := RejectAll(mid, t);
    Append(s, steps, rejects);
    steps := steps + rejects;
    var done := After(s, steps);
    assert done == AllRejected(mid, t);
    assert done.txs == s.txs[t := done.txs[t]];
  }

  function DecidingWrites(db: Shared, r: RequestId): map<RequestId, RequestState> {
    PutAll(map[r := Accepted], OtherPending(db, r), Rejected)
  }

  lemma WritesDecide(db: Shared, r: RequestId)
    requires r in db.rows
    ensures db.rows + DecidingWrites(db, r) == Decide(db.rows, r)
  {
  }

  lemma Finishes(s: State, t: TxId) returns (steps: seq<Step>)
    requires At(s, t, Rejecting({})) && s.db.statusLock == Some(t)
    requires forall r :: r in s.db.rowLocks ==> LockedBy(s.db, r, t)
    ensures Runs(s, steps) && At(After(s, steps), t, Committed) && NoLocks(After(s, steps))
    ensures After(s, steps).txs == s.txs[t := s.txs[t].(pc := Committed)]
    ensures After(s, steps).db == s.db.(rows := s.db.rows + s.txs[t].writes, active := false, rowLocks := map[],
                                        statusLock := None, commits := s.db.commits + [t])
  {
    steps := One(s, [], EndReject(t));
    steps := One(s, steps, Close(t));
    steps := One(s, steps, Commit(t));
    assert After(s, steps).db.rowLocks == map[];
    assert After(s, steps).txs == s.txs[t := s.txs[t].(pc := Committed)];
  }

  lemma GoesToRejecting(s: State, t: TxId) returns (steps: seq<Step>)
    requires NoLocks(s) && At(s, t, Found) && IsPending(s.db, s.txs[t].request) && s.txs[t].writes == map[]
    ensures Runs(s, steps) && NoRejoins(steps)
    ensures After(s, steps) ==
      var r := s.txs[t].request;
      State(s.db.(rowLocks := map[r := t], statusLock := Some(t)),
            s.txs[t := Tx(r, s.txs[t].caller, Rejecting(OtherPending(s.db, r)), map[r := Accepted])])
  {
    steps := One(s, [], LockRow(t));
    steps := One(s, steps, LockStatus(t));
    steps := One(s, steps, Mark(t));
    assert After(s, steps).txs[t].writes == map[s.txs[t].request := Accepted];
    steps := One(s, steps, BeginReject(t));
    var end, r := After(s, steps), s.txs[t].request;
    assert end.txs == s.txs[t := end.txs[t]];
    assert end.txs[t].pc.todo == OtherPending(s.db, r);
    assert end.db.rowLocks == map[r := t];
  }

  // ----- A transaction runs to its end -----

  // Nobody else holds a lock.
  predicate OnlyHolder(s: State, t: TxId) {
    (forall r :: r in s.db.rowLocks ==> LockedBy(s.db, r, t)) && (s.db.statusLock.Some? ==> s.db.statusLock == Some(t))
  }

  predicate Holding(pc: Pc) {
    InFlight(pc) || BlockHolds(pc)
  }

  function Stage(pc: Pc): nat {
    match pc
    case RowLocked => 6
    case StatusLocked => 5
    case Marked => 4
    case Rejecting(_) => 3
    case OthersRejected => 2
    case _ => 1
  }

  // The next statement of a transaction in flight.
  predicate IsOwnStep(step: Step, t: TxId) {
    && (step.LockStatus? || step.Mark? || step.BeginReject? || step.RejectRow? || step.EndReject? || step.Close?)
    && step.t == t
  }

  lemma OwnStep(s: State, t: TxId) returns (step: Step)
    requires LocksOwned(s) && OnlyHolder(s, t) && t in s.txs && InFlight(s.txs[t].pc) && !s.txs[t].pc.Closed?
    ensures IsOwnStep(step, t) && Enabled(s, step)
  {
    match s.txs[t].pc
    case RowLocked => step := LockStatus(t);
    case StatusLocked => step := Mark(t);
    case Marked => step := BeginReject(t);
    case Rejecting(todo) =>
      if todo == {} {
        step := EndReject(t);
      } else {
        var r :| r in todo;
        assert r !in s.db.rowLocks;
        step := RejectRow(t, r);
      }
    case OthersRejected => step := Close(t);
  }

  lemma OwnStepMoves(s: State, t: TxId, step: Step)
    requires OnlyHolder(s, t) && IsOwnStep(step, t) && Enabled(s, step)
    ensures var s' := Next(s, step);
      && t in s'.txs && OnlyHolder(s', t) && InFlight(s'.txs[t].pc) && s'.db.commits == s.db.commits
      && (Stage(s'.txs[t].pc) < Stage(s.txs[t].pc)
          || (Stage(s'.txs[t].pc) == Stage(s.txs[t].pc) && Todo(s'.txs[t].pc) < Todo(s.txs[t].pc)))
  {
  }

  // In flight and unhindered, an acceptance commits.
  lemma {:induction false} RunsOut(s: State, t: TxId) returns (steps: seq<Step>)
    requires LocksOwned(s) && OnlyHolder(s, t) && t in s.txs && InFlight(s.txs[t].pc)
    ensures Runs(s, steps) && At(After(s, steps), t, Committed) && After(s, steps).db.commits == s.db.commits + [t]
    ensures NoRejoins(steps) && NoAborts(steps)
    decreases Stage(s.txs[t].pc), Todo(s.txs[t].pc)
  {
    if s.txs[t].pc.Closed? {
      steps := [Commit(t)];
      assert steps[1..] == [];
    } else {
      var step := OwnStep(s, t);
      OwnStepMoves(s, t, step);
      NoOrphanStep(s, step);
      var rest := RunsOut(Next(s, step), t);
      steps := [step] + rest;
      assert steps[1..] == rest;
    }
  }

  function OtherHolders(s: State, t: TxId): set<TxId> {
    set u | u in s.txs && u != t && Holding(s.txs[u].pc)
  }

  lemma HolderAborts(s: State, t: TxId, u: TxId)
    requires LocksOwned(s) && t in s.txs && u in OtherHolders(s, t)
    ensures Enabled(s, Abort(u))
    ensures var s' := Next(s, Abort(u));
      && LocksOwned(s') && OtherHolders(s', t) == OtherHolders(s, t) - {u}
      && t in s'.txs && s'.txs[t] == s.txs[t] && s'.db.rows == s.db.rows && s'.db.commits == s.db.commits
  {
    NoOrphanStep(s, Abort(u));
  }

  // The others that hold a lock abort, and nothing else changes.
  lemma {:induction false} OthersAbort(s: State, t: TxId) returns (steps: seq<Step>)
    requires LocksOwned(s) && t in s.txs
    ensures Runs(s, steps) && LocksOwned(After(s, steps)) && OnlyHolder(After(s, steps), t)
    ensures var s' := After(s, steps);
      t in s'.txs && s'.txs[t] == s.txs[t] && s'.db.rows == s.db.rows && s'.db.commits == s.db.commits
    ensures forall step :: step in steps ==> step.Abort? && step.t in OtherHolders(s, t)
    decreases OtherHolders(s, t)
  {
    if OtherHolders(s, t) == {} {
      steps := [];
      assert forall u :: u in s.txs && u != t ==> u !in OtherHolders(s, t);
    } else {
      var u :| u in OtherHolders(s, t);
      HolderAborts(s, t, u);
      var rest := OthersAbort(Next(s, Abort(u)), t);
      steps := [Abort(u)] + rest;
      assert steps[1..] == rest;
    }
  }

  lemma WaiterLocks(s: State, t: TxId) returns (steps: seq<Step>)
    requires LocksOwned(s) && OnlyHolder(s, t) && At(s, t, Found)
    ensures Runs(s, steps) && LocksOwned(After(s, steps)) && OnlyHolder(After(s, steps), t)
    ensures At(After(s, steps), t, RowLocked) && After(s, steps).db.commits == s.db.commits
    ensures NoAborts(steps)
    ensures IsPending(s.db, s.txs[t].request) ==> NoRejoins(steps)
  {
    var r := s.txs[t].request;
    assert RowsKnown(s.db, s.txs[t]);
    assert s.db.rowLocks == map[];
    steps := [];
    if !IsPending(s.db, r) {
      NoOrphanStep(s, Rejoin(r));
      steps := One(s, [], Rejoin(r));
    }
    NoOrphanStep(After(s, steps), LockRow(t));
    steps := One(s, steps, LockRow(t));
  }

  // An acceptance past its first look can always commit, if others abort and its row is reopened in
  // case it has been decided.
  lemma LookedCommits(s: State, t: TxId) returns (steps: seq<Step>)
    requires LocksOwned(s) && t in s.txs && Looked(s.txs[t].pc)
    ensures Runs(s, steps) && At(After(s, steps), t, Committed) && After(s, steps).db.commits == s.db.commits + [t]
    ensures forall step :: step in steps && step.Abort? ==> step.t in OtherHolders(s, t)
    ensures IsPending(s.db, s.txs[t].request) || !s.txs[t].pc.Found? ==> NoRejoins(steps)
  {
    steps := OthersAbort(s, t);
    var mid := After(s, steps);
    if mid.txs[t].pc.Found? {
      var more := WaiterLocks(mid, t);
      Append(s, steps, more);
      steps := steps + more;
    }
    var rest := RunsOut(After(s, steps), t);
    Append(s, steps, rest);
    steps := steps + rest;
  }

  // ----- On a closed status -----

  ghost predicate SomeoneLooked(s: State) {
    exists t :: t in s.txs && Looked(s.txs[t].pc)
  }

  // An acceptance commits in this continuation.
  predicate CommitsMore(s: State, more: seq<Step>) {
    Runs(s, more) && |After(s, more).db.commits| > |s.db.commits|
  }

  ghost predicate CanCommitMore(s: State) {
    exists more :: CommitsMore(s, more)
  }

  // The status is closed and no acceptance is past its first look.
  ghost predicate Quiet(s: State) {
    !s.db.active && !SomeoneLooked(s)
  }

  lemma QuietStep(s: State, step: Step)
    requires Quiet(s) && Enabled(s, step)
    ensures Quiet(Next(s, step)) && Next(s, step).db.commits == s.db.commits
  {
    assert forall t :: t in s.txs ==> !Looked(s.txs[t].pc);
    forall t | t in Next(s, step).txs
      ensures !Looked(Next(s, step).txs[t].pc)
    {
      NobodyLooks(s, step, t);
    }
  }

  lemma NobodyLooks(s: State, step: Step, t: TxId)
    requires !s.db.active && Enabled(s, step) && t in Next(s, step).txs && (t in s.txs ==> !Looked(s.txs[t].pc))
    ensures !Looked(Next(s, step).txs[t].pc)
  {
  }

  lemma {:induction false} QuietForever(s: State, steps: seq<Step>)
    requires Quiet(s) && Runs(s, steps)
    ensures Quiet(After(s, steps)) && After(s, steps).db.commits == s.db.commits
    decreases steps
  {
    if steps != [] {
      QuietStep(s, steps[0]);
      QuietForever(Next(s, steps[0]), steps[1..]);
    }
  }

  lemma ClosedCommitIff(s: State)
    requires LocksOwned(s) && !s.db.active
    ensures CanCommitMore(s) <==> SomeoneLooked(s)
  {
    if t :| t in s.txs && Looked(s.txs[t].pc) {
      var more := LookedCommits(s, t);
      assert CommitsMore(s, more);
    } else {
      forall more | Runs(s, more)
        ensures After(s, more).db.commits == s.db.commits
      {
        QuietForever(s, more);
      }
    }
  }

  // On a status that is closed, by an acceptance or by a block, in any run whatever: an acceptance can
  // still commit exactly when one got past its first look while the status was open.
  lemma ClosedCommitIffLooked(s: State, before: seq<Step>)
    requires Initial(s) && Runs(s, before) && !After(s, before).db.active
    ensures CanCommitMore(After(s, before)) <==> SomeoneLooked(After(s, before))
  {
    NoOrphans(s, before);
    ClosedCommitIff(After(s, before));
  }

  ghost predicate SomeoneWaits(s: State) {
    exists t :: At(s, t, Found)
  }

  // The condition of AtMostOneCommit is tight: in every reachable state where one acceptance has
  // committed and another transaction still waits for its row, reopening that row lets the waiter
  // commit a second acceptance of the same status.
  lemma ReopenedWaiterCommits(s: State, before: seq<Step>, t: TxId) returns (more: seq<Step>)
    requires Initial(s) && Runs(s, before) && Orderly(s, before)
    requires At(After(s, before), t, Found) && After(s, before).db.commits != []
    ensures Runs(After(s, before), more)
    ensures After(After(s, before), more).db.commits == After(s, before).db.commits + [t]
  {
    NoOrphans(s, before);
    more := LookedCommits(After(s, before), t);
  }

  // Once an acceptance has committed, a second one can follow exactly when some transaction is still
  // waiting for its row; without a waiter no joins of any kind bring one about.
  lemma SecondCommitIffWaiter(s: State, before: seq<Step>)
    requires Initial(s) && Runs(s, before) && Orderly(s, before) && After(s, before).db.commits != []
    ensures CanCommitMore(After(s, before)) <==> SomeoneWaits(After(s, before))
  {
    RunKeeps(s, before);
    ClosedCommitIffLooked(s, before);
    LookedWaits(After(s, before));
  }

  lemma LookedWaits(s: State)
    requires Inv(s) && s.db.commits != []
    ensures SomeoneLooked(s) <==> SomeoneWaits(s)
  {
    forall t | t in s.txs && Looked(s.txs[t].pc)
      ensures At(s, t, Found)
    {
      assert TxOk(s.db, t, s.txs[t]);
    }
    if t :| At(s, t, Found) {
      assert t in s.txs && Looked(s.txs[t].pc);
    }
  }

  // ----- Acceptances in each other's way -----

  // Locks protect what a transaction relies on: its request, once locked, and all it has written.
  ghost predicate Held(s: State) {
    forall t :: t in s.txs ==> HeldBy(s.db, t, s.txs[t])
  }

  ghost predicate HeldBy(db: Shared, t: TxId, tx: Tx) {
    && (InFlight(tx.pc) ==> LockedBy(db, tx.request, t))
    && (Live(tx.pc) ==> forall r :: r in tx.writes ==> LockedBy(db, r, t))
  }

  lemma HeldStep(s: State, step: Step)
    requires Held(s) && Enabled(s, step)
    ensures Held(Next(s, step))
  {
    var s' := Next(s, step);
    forall t | t in s'.txs
      ensures HeldBy(s'.db, t, s'.txs[t])
    {
      HeldByStep(s, step, t);
    }
  }

  lemma HeldByStep(s: State, step: Step, t: TxId)
    requires Held(s) && Enabled(s, step) && t in Next(s, step).txs
    ensures HeldBy(Next(s, step).db, t, Next(s, step).txs[t])
  {
    assert t in s.txs ==> HeldBy(s.db, t, s.txs[t]);
    if step.Join? || step.Rejoin? || step.Commit? || step.Abort? || step.BlockCommit? {
    } else if step.t == t {
      OwnHeldStep(s, step);
    } else {
      OtherHeldStep(s, step, t);
    }
  }

  lemma OwnHeldStep(s: State, step: Step)
    requires Held(s) && Enabled(s, step) && (Private(step) || Locking(step))
    ensures step.t in Next(s, step).txs && HeldBy(Next(s, step).db, step.t, Next(s, step).txs[step.t])
  {
    if Private(step) {
      PrivateHeldStep(s, step);
    } else {
      LockingHeldStep(s, step);
    }
  }

  lemma PrivateHeldStep(s: State, step: Step)
    requires Held(s) && Enabled(s, step) && Private(step)
    ensures step.t in Next(s, step).txs && HeldBy(Next(s, step).db, step.t, Next(s, step).txs[step.t])
  {
    if step.t in s.txs {
      assert HeldBy(s.db, step.t, s.txs[step.t]);
      PrivateWrites(s, step);
    }
  }

  lemma PrivateWrites(s: State, step: Step)
    requires Enabled(s, step) && Private(step) && step.t in s.txs
    ensures var tx, tx' := s.txs[step.t], Next(s, step).txs[step.t];
      && tx'.request == tx.request && (InFlight(tx'.pc) ==> InFlight(tx.pc)) && Live(tx.pc)
      && (forall r :: r in tx'.writes ==> r in tx.writes || (InFlight(tx.pc) && r == tx.request))
    ensures Next(s, step).db == s.db
  {
  }

  lemma LockingHeldStep(s: State, step: Step)
    requires Held(s) && Enabled(s, step) && Locking(step)
    ensures step.t in Next(s, step).txs && HeldBy(Next(s, step).db, step.t, Next(s, step).txs[step.t])
  {
    assert HeldBy(s.db, step.t, s.txs[step.t]);
  }

  lemma OtherHeldStep(s: State, step: Step, t: TxId)
    requires Held(s) && Enabled(s, step) && (Private(step) || Locking(step)) && step.t != t && t in Next(s, step).txs
    ensures HeldBy(Next(s, step).db, t, Next(s, step).txs[t])
  {
    assert HeldBy(s.db, t, s.txs[t]);
  }

  // The transaction is in flight, and the row is one that it has still to reject.
  predicate HasToReject(s: State, t: TxId, r: RequestId) {
    && t in s.txs && InFlight(s.txs[t].pc) && s.txs[t].request != r
    && (Scanned(s.txs[t].pc) ==> r in Todo(s.txs[t].pc))
  }

  // Each of the two has its own request locked, and has to reject that of the other.
  predicate InEachOthersWay(s: State, t: TxId, u: TxId) {
    && t in s.txs && u in s.txs
    && HasToReject(s, t, s.txs[u].request) && HasToReject(s, u, s.txs[t].request)
    && IsPending(s.db, s.txs[t].request) && IsPending(s.db, s.txs[u].request)
  }

  lemma WayStep(s: State, step: Step, t: TxId, u: TxId)
    requires Held(s) && InEachOthersWay(s, t, u) && Enabled(s, step) && step != Abort(t) && step != Abort(u)
    ensures InEachOthersWay(Next(s, step), t, u)
  {
    assert HeldBy(s.db, t, s.txs[t]) && HeldBy(s.db, u, s.txs[u]);
    StillPending(s, step, t);
    StillPending(s, step, u);
    StillToReject(s, step, t, s.txs[u].request);
    StillToReject(s, step, u, s.txs[t].request);
  }

  // Nobody else decides a request that is locked.
  lemma StillPending(s: State, step: Step, t: TxId)
    requires Held(s) && Enabled(s, step) && t in s.txs && InFlight(s.txs[t].pc) && IsPending(s.db, s.txs[t].request)
    requires step != Commit(t)
    ensures IsPending(Next(s, step).db, s.txs[t].request)
  {
    assert HeldBy(s.db, t, s.txs[t]);
    if step.Commit? || step.BlockCommit? {
      assert HeldBy(s.db, step.t, s.txs[step.t]);
      assert s.txs[t].request !in s.txs[step.t].writes;
      CommitRows(s, step);
    } else {
      OtherStepsDecideNothing(s, step);
    }
  }

  lemma CommitRows(s: State, step: Step)
    requires Enabled(s, step) && (step.Commit? || step.BlockCommit?)
    ensures Next(s, step).db.rows == s.db.rows + s.txs[step.t].writes
  {
  }

  lemma OtherStepsDecideNothing(s: State, step: Step)
    requires Enabled(s, step) && !step.Commit? && !step.BlockCommit?
    ensures forall r :: IsPending(s.db, r) ==> IsPending(Next(s, step).db, r)
  {
  }

  lemma StillToReject(s: State, step: Step, t: TxId, r: RequestId)
    requires HasToReject(s, t, r) && r in s.db.rowLocks && IsPending(s.db, r) && Enabled(s, step) && step != Abort(t)
    ensures HasToReject(Next(s, step), t, r) && Next(s, step).txs[t].request == s.txs[t].request
  {
    if (Private(step) || Locking(step)) && step.t == t {
      OwnStillToReject(s, step, r);
    }
  }

  lemma OwnStillToReject(s: State, step: Step, r: RequestId)
    requires Enabled(s, step) && (Private(step) || Locking(step))
    requires HasToReject(s, step.t, r) && r in s.db.rowLocks && IsPending(s.db, r)
    ensures HasToReject(Next(s, step), step.t, r) && Next(s, step).txs[step.t].request == s.txs[step.t].request
  {
  }

  // Two acceptances in flight stay so until one of them aborts: neither commits.
  lemma {:induction false} WayForever(s: State, steps: seq<Step>, t: TxId, u: TxId)
    requires Held(s) && InEachOthersWay(s, t, u) && Runs(s, steps) && Abort(t) !in steps && Abort(u) !in steps
    ensures InEachOthersWay(After(s, steps), t, u)
    decreases steps
  {
    if steps != [] {
      assert steps[0] in steps && forall x :: x in steps[1..] ==> x in steps;
      WayStep(s, steps[0], t, u);
      HeldStep(s, steps[0]);
      WayForever(Next(s, steps[0]), steps[1..], t, u);
    }
  }

  lemma InFlightInTheWay(s: State, t: TxId, u: TxId)
    requires Inv(s) && t in s.txs && u in s.txs && t != u && InFlight(s.txs[t].pc) && InFlight(s.txs[u].pc)
    ensures Held(s) && InEachOthersWay(s, t, u)
  {
    forall v | v in s.txs
      ensures HeldBy(s.db, v, s.txs[v])
    {
      assert TxOk(s.db, v, s.txs[v]);
    }
    assert TxOk(s.db, t, s.txs[t]) && TxOk(s.db, u, s.txs[u]);
    assert Covers(s.db, s.txs[t], s.txs[u]) && Covers(s.db, s.txs[u], s.txs[t]);
  }

  // The transaction commits in this continuation, and nothing is aborted in it but blocks that hold a
  // lock now.
  ghost predicate CommitsSparing(s: State, more: seq<Step>, t: TxId) {
    && Runs(s, more) && At(After(s, more), t, Committed)
    && forall step :: step in more && step.Abort? ==> step.t in s.txs && BlockHolds(s.txs[step.t].pc)
  }

  ghost predicate CanCommitSparing(s: State, t: TxId) {
    exists more :: CommitsSparing(s, more, t)
  }

  ghost predicate AloneInFlight(s: State, t: TxId) {
    forall u :: u in s.txs && InFlight(s.txs[u].pc) ==> u == t
  }

  // After any orderly run, an acceptance in flight can commit without an abort of any acceptance
  // exactly when no other is in flight.
  lemma CommitIffAlone(s: State, before: seq<Step>, t: TxId)
    requires Initial(s) && Runs(s, before) && Orderly(s, before)
    requires t in After(s, before).txs && InFlight(After(s, before).txs[t].pc)
    ensures CanCommitSparing(After(s, before), t) <==> AloneInFlight(After(s, before), t)
  {
    RunKeeps(s, before);
    NoOrphans(s, before);
    SparingIffAlone(After(s, before), t);
  }

  lemma SparingIffAlone(s: State, t: TxId)
    requires Inv(s) && LocksOwned(s) && t in s.txs && InFlight(s.txs[t].pc)
    ensures CanCommitSparing(s, t) <==> AloneInFlight(s, t)
  {
    if AloneInFlight(s, t) {
      AloneCommitsSparing(s, t);
    } else {
      var u :| u in s.txs && InFlight(s.txs[u].pc) && u != t;
      forall more
        ensures !CommitsSparing(s, more, t)
      {
        NeitherCommits(s, more, t, u);
      }
    }
  }

  lemma AloneCommitsSparing(s: State, t: TxId)
    requires LocksOwned(s) && t in s.txs && InFlight(s.txs[t].pc) && AloneInFlight(s, t)
    ensures CanCommitSparing(s, t)
  {
    var more := LookedCommits(s, t);
    forall step | step in more && step.Abort?
      ensures step.t in s.txs && BlockHolds(s.txs[step.t].pc)
    {
      assert step.t in OtherHolders(s, t);
    }
    assert CommitsSparing(s, more, t);
  }

  lemma NeitherCommits(s: State, more: seq<Step>, t: TxId, u: TxId)
    requires Inv(s) && t in s.txs && u in s.txs && t != u && InFlight(s.txs[t].pc) && InFlight(s.txs[u].pc)
    ensures !CommitsSparing(s, more, t)
  {
    if CommitsSparing(s, more, t) {
      SparesInFlight(s, more, t, t);
      SparesInFlight(s, more, t, u);
      InFlightInTheWay(s, t, u);
      WayForever(s, more, t, u);
    }
  }

  lemma SparesInFlight(s: State, more: seq<Step>, t: TxId, u: TxId)
    requires CommitsSparing(s, more, t) && u in s.txs && InFlight(s.txs[u].pc)
    ensures Abort(u) !in more
  {
    assert Abort(u).Abort? && Abort(u).t == u;
  }

  // The closing transaction waits for a request row whose owner waits for the status row.
  predicate Deadlocked(s: State, t: TxId, u: TxId) {
    && t in s.txs && s.txs[t].pc.Rejecting? && s.db.statusLock == Some(t)
    && At(s, u, RowLocked) && s.txs[u].request in s.txs[t].pc.todo && LockedBy(s.db, s.txs[u].request, u)
  }

  lemma DeadlockStays(s: State, step: Step, t: TxId, u: TxId)
    requires Deadlocked(s, t, u) && Enabled(s, step) && step != Abort(t) && step != Abort(u)
    ensures Deadlocked(Next(s, step), t, u)
  {
  }

  // Then only an abort (the database's deadlock detection) lets either go on.
  lemma {:induction false} OnlyAbortEndsDeadlock(s: State, steps: seq<Step>, t: TxId, u: TxId)
    requires Deadlocked(s, t, u) && Runs(s, steps)
    requires Abort(t) !in steps && Abort(u) !in steps
    ensures Deadlocked(After(s, steps), t, u)
    decreases steps
  {
    if steps != [] {
      assert steps[0] in steps && forall x :: x in steps[1..] ==> x in steps;
      DeadlockStays(s, steps[0], t, u);
      OnlyAbortEndsDeadlock(Next(s, steps[0]), steps[1..], t, u);
    }
  }

  // ----- Runs in which these things happen -----

  // Such a state is reachable, so two acceptances of one status can commit.
  lemma TwoCommitsPossible() returns (s: State, steps: seq<Step>)
    ensures Initial(s) && Runs(s, steps) && |After(s, steps).db.commits| == 2
  {
    s, steps := BothLooked(7);
    var first := AloneCommits(After(s, steps), 10);
    Append(s, steps, first);
    steps := steps + first;
    steps := One(s, steps, Rejoin(2));
    var second := AloneCommits(After(s, steps), 20);
    Append(s, steps, second);
    steps := steps + second;
  }

  // Two transactions on different requests have both seen theirs pending.
  lemma BothLooked(owner: UserId) returns (s: State, steps: seq<Step>)
    ensures Initial(s) && Runs(s, steps)
    ensures After(s, steps) == State(s.db, map[10 := Tx(1, owner, Found, map[]), 20 := Tx(2, owner, Found, map[])])
    ensures NoRejoins(steps)
    ensures s.db == Shared(owner, map[1 := Pending, 2 := Pending], true, map[], None, [])
  {
    s := State(Shared(owner, map[1 := Pending, 2 := Pending], true, map[], None, []), map[]);
    steps := One(s, [], Begin(10, 1, owner));
    steps := One(s, steps, Begin(20, 2, owner));
    steps := One(s, steps, Find(10));
    steps := One(s, steps, Find(20));
  }

  lemma {:induction false} OrderlyWithoutRejoins(s: State, steps: seq<Step>)
    requires Runs(s, steps) && NoRejoins(steps)
    ensures Orderly(s, steps)
    decreases steps
  {
    if steps != [] {
      assert steps[0] in steps && forall x :: x in steps[1..] ==> x in steps;
      OrderlyWithoutRejoins(Next(s, steps[0]), steps[1..]);
    }
  }

  // Two acceptances that have seen different requests pending can come to wait for each other.
  lemma DeadlockFrom(s: State, t: TxId, u: TxId) returns (steps: seq<Step>)
    requires NoLocks(s) && At(s, t, Found) && At(s, u, Found) && s.txs[t].request != s.txs[u].request
    requires IsPending(s.db, s.txs[t].request) && IsPending(s.db, s.txs[u].request) && s.txs[t].writes == map[]
    ensures Runs(s, steps) && NoRejoins(steps) && Deadlocked(After(s, steps), t, u)
  {
    steps := GoesToRejecting(s, t);
    assert s.txs[u].request in After(s, steps).txs[t].pc.todo;
    steps := One(s, steps, LockRow(u));
  }

  // And such a state is reachable.
  lemma DeadlockPossible() returns (s: State, steps: seq<Step>)
    ensures Initial(s) && Runs(s, steps) && Orderly(s, steps) && Deadlocked(After(s, steps), 10, 20)
  {
    s, steps := BothLooked(7);
    var more := DeadlockFrom(After(s, steps), 10, 20);
    Append(s, steps, more);
    steps := steps + more;
    OrderlyWithoutRejoins(s, steps);
  }

  // A block that runs alone rejects its pending request and closes the open status.
  lemma BlockRuns(s: State, t: TxId, r: RequestId, caller: UserId) returns (steps: seq<Step>)
    requires NoLocks(s) && t !in s.txs && IsPending(s.db, r) && s.db.active
    ensures Runs(s, steps) && NoRejoins(steps)
    ensures After(s, steps).txs == s.txs[t := Tx(r, caller, BlockCommitted, map[r := Rejected])]
    ensures After(s, steps).db == s.db.(rows := s.db.rows[r := Rejected], active := false)
  {
    steps := BlockRejects(s, t, r, caller);
    var rest := BlockEnds(After(s, steps), t);
    Append(s, steps, rest);
    steps := steps + rest;
    assert s.db.rows + map[r := Rejected] == s.db.rows[r := Rejected];
    assert After(s, steps).txs == s.txs[t := Tx(r, caller, BlockCommitted, map[r := Rejected])];
  }

  lemma BlockRejects(s: State, t: TxId, r: RequestId, caller: UserId) returns (steps: seq<Step>)
    requires NoLocks(s) && t !in s.txs && IsPending(s.db, r)
    ensures Runs(s, steps) && NoRejoins(steps)
    ensures After(s, steps)
         == State(s.db.(rowLocks := map[r := t]), s.txs[t := Tx(r, caller, BlockRejected, map[r := Rejected])])
  {
    steps := One(s, [], BeginBlock(t, r, caller));
    steps := One(s, steps, BlockScan(t));
    assert After(s, steps) == State(s.db, s.txs[t := Tx(r, caller, BlockWaits, map[])]);
    steps := One(s, steps, BlockReject(t));
    assert After(s, steps).txs == s.txs[t := Tx(r, caller, BlockRejected, map[r := Rejected])];
  }

  lemma BlockEnds(s: State, t: TxId) returns (steps: seq<Step>)
    requires At(s, t, BlockRejected) && s.db.active && s.txs[t].request in s.txs[t].writes
    requires s.db.statusLock.None? && forall r :: r in s.db.rowLocks ==> LockedBy(s.db, r, t)
    ensures Runs(s, steps) && NoRejoins(steps)
    ensures After(s, steps).txs == s.txs[t := s.txs[t].(pc := BlockCommitted)]
    ensures After(s, steps).db == s.db.(rows := s.db.rows + s.txs[t].writes, active := false, rowLocks := map[])
  {
    steps := BlockGetsStatus(s, t);
    BlockCommitAlone(After(s, steps), t);
    steps := One(s, steps, BlockCommit(t));
  }

  lemma BlockGetsStatus(s: State, t: TxId) returns (steps: seq<Step>)
    requires At(s, t, BlockRejected) && ToClose(s.db, s.txs[t]) && s.db.statusLock.None?
    ensures Runs(s, steps) && NoRejoins(steps)
    ensures After(s, steps) == State(s.db.(statusLock := Some(t)), s.txs[t := s.txs[t].(pc := BlockClosed)])
  {
    steps := One(s, [], BlockSee(t));
    steps := One(s, steps, BlockClose(t));
    assert After(s, steps).txs == s.txs[t := s.txs[t].(pc := BlockClosed)];
  }

  lemma BlockCommitAlone(s: State, t: TxId)
    requires At(s, t, BlockClosed) && s.db.statusLock == Some(t)
    requires forall r :: r in s.db.rowLocks ==> LockedBy(s.db, r, t)
    ensures Next(s, BlockCommit(t)).db
         == s.db.(rows := s.db.rows + s.txs[t].writes, active := false, rowLocks := map[], statusLock := None)
    ensures Next(s, BlockCommit(t)).txs == s.txs[t := s.txs[t].(pc := BlockCommitted)]
  {
    assert Unlocked(s.db, t).rowLocks == map[];
  }

  // A block closes the status before the first acceptance has locked its row, and the acceptance
  // commits all the same; nobody re-joins in the course of it.
  lemma AcceptedAfterBlock() returns (s: State, before: seq<Step>, more: seq<Step>)
    ensures Initial(s) && Runs(s, before) && !After(s, before).db.active && After(s, before).db.commits == []
    ensures Runs(After(s, before), more) && After(After(s, before), more).db.commits == [10]
    ensures NoRejoins(before) && NoRejoins(more)
  {
    s, before := BothLooked(7);
    var block := BlockRuns(After(s, before), 30, 2, 7);
    Append(s, before, block);
    before := before + block;
    var mid := After(s, before);
    assert At(mid, 10, Found) && mid.txs[10].request == 1 && IsPending(mid.db, 1);
    NoOrphans(s, before);
    more := LookedCommits(mid, 10);
  }
}

/**
 `AcceptRequestAndCloseStatus` run statement by statement, by any number of transactions on one
 status, under the Read Committed isolation level of PostgreSQL 16 (sections 13.2.1 and 13.3.2 of
 its documentation), together with everything else that writes the same rows: joins and blocks.

 Every statement sees the rows committed when it starts, and what its own transaction has written.
 A row lock is held until commit or abort and a statement that needs a lock held by another
 transaction waits, which here means that its step is not enabled.  A waiter that gets its lock
 re-checks the condition on the newest version of the row it locked, but not on the other tables of
 the query.  A live transaction may abort at any time: a deadlock victim, an expired status and a
 lost connection all end that way.

 Inserting a request checks its foreign key, which needs a key share lock on the status row, so it
 waits for a transaction that holds that row FOR UPDATE.  Re-joining updates the existing row and
 takes no lock on the status.  A block concerns at most one request of the status, the one between
 its two users; closing the status locks its row, but not against key share.
 */
module AcceptProtocol {
  import opened Options
  import opened Requests

  type TxId = nat
  type RequestId = nat
  type UserId = nat

  datatype Pc =
    // an acceptance
    | Start                        // nothing executed
    | Found                        // the first SELECT saw the row; it is not locked yet
    | RowLocked                    // the first SELECT returned, request row locked
    | StatusLocked                 // the second SELECT returned, status row locked
    | Marked                       // own request set to accepted
    | Rejecting(todo: set<RequestId>)  // the rejecting UPDATE still has these rows to visit
    | OthersRejected
    | Closed                       // status set inactive
    | Committed
    | Aborted
    // a block
    | BlockStart                   // nothing executed on these tables
    | BlockWaits                   // the rejecting UPDATE saw the request pending; it is not locked yet
    | BlockRejected                // the rejecting UPDATE is over
    | BlockSaw                     // the closing UPDATE saw an active status; it is not locked yet
    | BlockClosed                  // status row locked and set inactive
    | BlockDone                    // there was nothing to close
    | BlockCommitted

  datatype Tx = Tx(request: RequestId, caller: UserId, pc: Pc, writes: map<RequestId, RequestState>)

  // rows, active: the committed state.  rowLocks, statusLock: who holds which row lock.
  // commits: the acceptances that have committed, oldest first.
  datatype Shared = Shared(owner: UserId, rows: map<RequestId, RequestState>, active: bool,
                           rowLocks: map<RequestId, TxId>, statusLock: Option<TxId>, commits: seq<TxId>)

  datatype State = State(db: Shared, txs: map<TxId, Tx>)

  datatype Step =
    | Begin(t: TxId, request: RequestId, caller: UserId)
    | Find(t: TxId)
    | Miss(t: TxId)                // a SELECT returned no row, the transaction rolls back
    | LockRow(t: TxId)
    | LockStatus(t: TxId)
    | Mark(t: TxId)
    | BeginReject(t: TxId)
    | RejectRow(t: TxId, r: RequestId)
    | EndReject(t: TxId)
    | Close(t: TxId)
    | Commit(t: TxId)
    | Abort(t: TxId)
    | BeginBlock(t: TxId, request: RequestId, caller: UserId)
    | BlockScan(t: TxId)
    | BlockReject(t: TxId)
    | BlockSee(t: TxId)
    | BlockSkip(t: TxId)
    | BlockClose(t: TxId)
    | BlockCommit(t: TxId)
    | Join(r: RequestId)
    | Rejoin(r: RequestId)

  predicate At(s: State, t: TxId, pc: Pc) {
    t in s.txs && s.txs[t].pc == pc
  }

  predicate HoldsStatus(pc: Pc) {
    pc.StatusLocked? || pc.Marked? || Scanned(pc)
  }

  // The rejecting UPDATE has chosen its rows.
  predicate Scanned(pc: Pc) {
    pc.Rejecting? || pc.OthersRejected? || pc.Closed?
  }

  // An acceptance between its first row lock and its end.
  predicate InFlight(pc: Pc) {
    pc.RowLocked? || HoldsStatus(pc)
  }

  // An acceptance that got past its first look at the status.
  predicate Looked(pc: Pc) {
    pc.Found? || InFlight(pc)
  }

  // A block that may hold the lock of its request.
  predicate BlockHolds(pc: Pc) {
    pc.BlockRejected? || pc.BlockSaw? || pc.BlockClosed? || pc.BlockDone?
  }

  predicate Live(pc: Pc) {
    !pc.Committed? && !pc.Aborted? && !pc.BlockCommitted?
  }

  predicate IsPending(db: Shared, r: RequestId) {
    r in db.rows && db.rows[r] == Pending
  }

  predicate LockedBy(db: Shared, r: RequestId, t: TxId) {
    r in db.rowLocks && db.rowLocks[r] == t
  }

  // An acceptance has locked the status row FOR UPDATE.
  predicate HeldForUpdate(s: State) {
    s.db.statusLock.Some? && s.db.statusLock.value in s.txs && HoldsStatus(s.txs[s.db.statusLock.value].pc)
  }

  function OtherPending(db: Shared, r: RequestId): set<RequestId> {
    set q | q in db.rows && q != r && IsPending(db, q)
  }

  // The condition of the first SELECT, on the committed state.
  predicate Matches(db: Shared, tx: Tx) {
    IsPending(db, tx.request) && tx.caller == db.owner && db.active
  }

  // The condition of the closing UPDATE of a block, as its transaction sees it.
  predicate ToClose(db: Shared, tx: Tx) {
    db.active && (tx.request in tx.writes || (tx.request in db.rows && db.rows[tx.request] == Rejected))
  }

  predicate Enabled(s: State, step: Step) {
    match step
    case Begin(t, _, _) => t !in s.txs
    case Find(t) => At(s, t, Start) && Matches(s.db, s.txs[t])
    case Miss(t) =>
      || (At(s, t, Start) && !Matches(s.db, s.txs[t]))
      || (At(s, t, Found) && s.txs[t].request !in s.db.rowLocks && !IsPending(s.db, s.txs[t].request))
    case LockRow(t) => At(s, t, Found) && s.txs[t].request !in s.db.rowLocks && IsPending(s.db, s.txs[t].request)
    case LockStatus(t) => At(s, t, RowLocked) && s.db.statusLock.None?
    case Mark(t) => At(s, t, StatusLocked)
    case BeginReject(t) => At(s, t, Marked)
    case RejectRow(t, r) =>
      t in s.txs && s.txs[t].pc.Rejecting? && r in s.txs[t].pc.todo && r !in s.db.rowLocks
    case EndReject(t) => At(s, t, Rejecting({}))
    case Close(t) => At(s, t, OthersRejected)
    case Commit(t) => At(s, t, Closed)
    case Abort(t) => t in s.txs && Live(s.txs[t].pc)
    case BeginBlock(t, _, _) => t !in s.txs
    case BlockScan(t) => At(s, t, BlockStart)
    case BlockReject(t) => At(s, t, BlockWaits) && s.txs[t].request !in s.db.rowLocks
    case BlockSee(t) => At(s, t, BlockRejected) && ToClose(s.db, s.txs[t])
    case BlockSkip(t) => At(s, t, BlockRejected) && !ToClose(s.db, s.txs[t])
    case BlockClose(t) => At(s, t, BlockSaw) && s.db.statusLock.None?
    case BlockCommit(t) => At(s, t, BlockClosed) || At(s, t, BlockDone)
    case Join(r) => r !in s.db.rows && !HeldForUpdate(s)
    case Rejoin(r) => r in s.db.rows && r !in s.db.rowLocks
  }

  function Goto(s: State, t: TxId, pc: Pc): State
    requires t in s.txs
  {
    s.(txs := s.txs[t := s.txs[t].(pc := pc)])
  }

  // The row is locked, and rejected if it is still pending.
  function Visit(s: State, t: TxId, r: RequestId, pc: Pc): State
    requires t in s.txs
  {
    var tx := s.txs[t];
    var writes := if IsPending(s.db, r) then tx.writes[r := Rejected] else tx.writes;
    State(s.db.(rowLocks := s.db.rowLocks[r := t]), s.txs[t := tx.(pc := pc, writes := writes)])
  }

  function Unlocked(db: Shared, t: TxId): Shared {
    db.(rowLocks := map r | r in db.rowLocks && db.rowLocks[r] != t :: db.rowLocks[r],
        statusLock := if db.statusLock == Some(t) then None else db.statusLock)
  }

  function Next(s: State, step: Step): State
    requires Enabled(s, step)
  {
    match step
    case Begin(t, request, caller) => s.(txs := s.txs[t := Tx(request, caller, Start, map[])])
    case Find(t) => Goto(s, t, Found)
    case Miss(t) => Goto(s, t, Aborted)
    case LockRow(t) =>
      Goto(s, t, RowLocked).(db := s.db.(rowLocks := s.db.rowLocks[s.txs[t].request := t]))
    case LockStatus(t) => Goto(s, t, StatusLocked).(db := s.db.(statusLock := Some(t)))
    case Mark(t) =>
      var tx := s.txs[t];
      s.(txs := s.txs[t := tx.(pc := Marked, writes := tx.writes[tx.request := Accepted])])
    case BeginReject(t) => Goto(s, t, Rejecting(OtherPending(s.db, s.txs[t].request)))
    case RejectRow(t, r) => Visit(s, t, r, Rejecting(s.txs[t].pc.todo - {r}))
    case EndReject(t) => Goto(s, t, OthersRejected)
    case Close(t) => Goto(s, t, Closed)
    case Commit(t) =>
      Goto(s, t, Committed).(db := Unlocked(s.db, t).(rows := s.db.rows + s.txs[t].writes, active := false,
                                                      commits := s.db.commits + [t]))
    case Abort(t) => Goto(s, t, Aborted).(db := Unlocked(s.db, t))
    case BeginBlock(t, request, caller) => s.(txs := s.txs[t := Tx(request, caller, BlockStart, map[])])
    case BlockScan(t) => Goto(s, t, if IsPending(s.db, s.txs[t].request) then BlockWaits else BlockRejected)
    case BlockReject(t) => Visit(s, t, s.txs[t].request, BlockRejected)
    case BlockSee(t) => Goto(s, t, BlockSaw)
    case BlockSkip(t) => Goto(s, t, BlockDone)
    case BlockClose(t) => Goto(s, t, BlockClosed).(db := s.db.(statusLock := Some(t)))
    case BlockCommit(t) =>
      Goto(s, t, BlockCommitted).(db := Unlocked(s.db, t).(rows := s.db.rows + s.txs[t].writes,
                                                           active := s.db.active && s.txs[t].pc.BlockDone?))
    case Join(r) => s.(db := s.db.(rows := s.db.rows[r := Pending]))
    case Rejoin(r) => s.(db := s.db.(rows := s.db.rows[r := Pending]))
  }

  // Before the first transaction: nothing is locked, and an active status has no decided request
  // (the store keeps it so in every serial run).
  predicate Initial(s: State) {
    && s.db.rowLocks == map[] && s.db.statusLock.None? && s.db.commits == [] && s.txs == map[]
    && (s.db.active ==> forall r :: r in s.db.rows ==> IsPending(s.db, r))
  }

  // Every step of the sequence is enabled when its turn comes.
  predicate Runs(s: State, steps: seq<Step>)
    decreases steps
  {
    steps == [] || (Enabled(s, steps[0]) && Runs(Next(s, steps[0]), steps[1..]))
  }

  function After(s: State, steps: seq<Step>): State
    requires Runs(s, steps)
    decreases steps
  {
    if steps == [] then s else After(Next(s, steps[0]), steps[1..])
  }

  // A re-join turns a decided request back to pending while an acceptance that has already seen it
  // pending is waiting for its row lock.
  ghost predicate ReopensUnderWaiter(s: State, step: Step) {
    step.Rejoin? && !IsPending(s.db, step.r) && exists t :: At(s, t, Found) && s.txs[t].request == step.r
  }

  ghost predicate Orderly(s: State, steps: seq<Step>)
    requires Runs(s, steps)
    decreases steps
  {
    steps == [] || (!ReopensUnderWaiter(s, steps[0]) && Orderly(Next(s, steps[0]), steps[1..]))
  }

  // ----- The invariant -----

  // What holds of one transaction by itself.  As long as no acceptance has committed, one that is in
  // flight has its request locked and pending; once one has, nobody is in flight, and whoever still
  // waits for its row will find it decided.
  ghost predicate TxOk(db: Shared, t: TxId, tx: Tx) {
    && (Looked(tx.pc) ==> tx.caller == db.owner)
    && (tx.pc.Found? ==> tx.request in db.rows && (db.commits != [] ==> !IsPending(db, tx.request)))
    && (InFlight(tx.pc) ==> db.commits == [] && LockedBy(db, tx.request, t) && IsPending(db, tx.request))
    && (HoldsStatus(tx.pc) || tx.pc.BlockClosed? ==> db.statusLock == Some(t))
    && (tx.pc.Committed? ==> db.commits == [t])
    && WritesOk(db, t, tx)
  }

  // What a transaction has written so far: its own acceptance, then rejections of rows it locked.
  ghost predicate WritesOk(db: Shared, t: TxId, tx: Tx) {
    match tx.pc
    case Marked => tx.writes == map[tx.request := Accepted]
    case Rejecting(todo) => tx.request !in todo && todo <= db.rows.Keys && Rejections(db, t, tx)
    case OthersRejected => Rejections(db, t, tx)
    case Closed => Rejections(db, t, tx)
    case BlockRejected => OneWrite(db, t, tx)
    case BlockSaw => OneWrite(db, t, tx)
    case BlockClosed => OneWrite(db, t, tx)
    case BlockDone => OneWrite(db, t, tx) && (tx.writes == map[] || !db.active)
    case Committed => true
    case Aborted => true
    case BlockCommitted => true
    case _ => tx.writes == map[]
  }

  ghost predicate OwnWrites(db: Shared, t: TxId, tx: Tx) {
    forall r :: r in tx.writes ==> LockedBy(db, r, t) && IsPending(db, r)
  }

  ghost predicate OneWrite(db: Shared, t: TxId, tx: Tx) {
    OwnWrites(db, t, tx) && forall r :: r in tx.writes ==> r == tx.request && tx.writes[r] == Rejected
  }

  // While the status is open, every other pending row is rejected already or still to be visited.
  ghost predicate Rejections(db: Shared, t: TxId, tx: Tx) {
    && tx.request in tx.writes && tx.writes[tx.request] == Accepted
    && OwnWrites(db, t, tx) && (forall r :: r in tx.writes && r != tx.request ==> tx.writes[r] == Rejected)
    && (db.active ==> forall r :: IsPending(db, r) ==> Settles(tx, r))
  }

  function Todo(pc: Pc): set<RequestId> {
    if pc.Rejecting? then pc.todo else {}
  }

  predicate Settles(tx: Tx, r: RequestId) {
    r in tx.writes || r in Todo(tx.pc)
  }

  // Even on a status that a block has closed: no pending request of an acceptance that got past its
  // first look escapes one that has chosen its rows.
  predicate Covers(db: Shared, tx: Tx, other: Tx) {
    Scanned(tx.pc) && Looked(other.pc) && IsPending(db, other.request) ==> Settles(tx, other.request)
  }

  ghost predicate FlagOk(db: Shared) {
    && |db.commits| <= 1
    && (db.active ==> db.commits == [] && forall r :: r in db.rows ==> IsPending(db, r))
  }

  ghost predicate Inv(s: State) {
    && FlagOk(s.db)
    && (forall t :: t in s.txs ==> TxOk(s.db, t, s.txs[t]))
    && (forall t, u :: t in s.txs && u in s.txs && t != u ==> Covers(s.db, s.txs[t], s.txs[u]))
  }

  // A transaction does not notice a change that keeps its locks and the rows it relies on.
  lemma Unnoticed(db: Shared, db': Shared, t: TxId, tx: Tx)
    requires TxOk(db, t, tx)
    requires db'.commits == db.commits && db'.owner == db.owner && (db'.active ==> db.active)
    requires forall r :: r in db.rows ==> r in db'.rows
    requires forall r :: LockedBy(db, r, t) ==> LockedBy(db', r, t) && (IsPending(db, r) ==> IsPending(db', r))
    requires db.statusLock == Some(t) ==> db'.statusLock == Some(t)
    requires tx.pc.Found? && IsPending(db', tx.request) ==> IsPending(db, tx.request) || db.commits == []
    requires HoldsStatus(tx.pc) && db'.active ==> forall r :: IsPending(db', r) ==> IsPending(db, r)
    ensures TxOk(db', t, tx)
  {
  }

  // ----- Steps of one transaction that leave the rows alone -----

  // The statements that write nothing but the transaction's own state.
  predicate Private(step: Step) {
    || step.Begin? || step.Find? || step.Miss? || step.Mark? || step.BeginReject? || step.EndReject? || step.Close?
    || step.BeginBlock? || step.BlockScan? || step.BlockSee? || step.BlockSkip?
  }

  // The statements that take a lock.
  predicate Locking(step: Step) {
    step.LockRow? || step.LockStatus? || step.RejectRow? || step.BlockReject? || step.BlockClose?
  }

  lemma LookKeeps(s: State, step: Step)
    requires Inv(s) && Enabled(s, step) && (step.Begin? || step.Find? || step.Miss? || step.BeginBlock?)
    ensures TxOk(s.db, step.t, Next(s, step).txs[step.t])
  {
    assert step.t in s.txs ==> TxOk(s.db, step.t, s.txs[step.t]);
  }

  lemma WriteKeeps(s: State, step: Step)
    requires Inv(s) && Enabled(s, step) && (step.Mark? || step.BeginReject? || step.EndReject? || step.Close?)
    ensures TxOk(s.db, step.t, Next(s, step).txs[step.t])
  {
    assert TxOk(s.db, step.t, s.txs[step.t]);
  }

  lemma BlockLookKeeps(s: State, step: Step)
    requires Enabled(s, step) && (step.BlockScan? || step.BlockSee? || step.BlockSkip?)
    requires TxOk(s.db, step.t, s.txs[step.t])
    ensures TxOk(s.db, step.t, Next(s, step).txs[step.t])
  {
  }

  lemma PrivateKeeps(s: State, step: Step)
    requires Inv(s) && Enabled(s, step) && Private(step)
    ensures Next(s, step).db == s.db && TxOk(s.db, step.t, Next(s, step).txs[step.t])
  {
    if step.Begin? || step.Find? || step.Miss? || step.BeginBlock? {
      LookKeeps(s, step);
    } else if step.BlockScan? || step.BlockSee? || step.BlockSkip? {
      BlockLookKeeps(s, step);
    } else {
      WriteKeeps(s, step);
    }
  }

  // ----- Steps that take a lock -----

  lemma LockerKeeps(s: State, step: Step)
    requires Inv(s) && Enabled(s, step) && (step.LockRow? || step.LockStatus?)
    ensures TxOk(Next(s, step).db, step.t, Next(s, step).txs[step.t])
  {
    assert TxOk(s.db, step.t, s.txs[step.t]);
  }

  lemma BlockLockerKeeps(s: State, step: Step)
    requires Inv(s) && Enabled(s, step) && (step.BlockReject? || step.BlockClose?)
    ensures TxOk(Next(s, step).db, step.t, Next(s, step).txs[step.t])
  {
    assert TxOk(s.db, step.t, s.txs[step.t]);
  }

  lemma RejecterKeeps(s: State, t: TxId, r: RequestId)
    requires Inv(s) && Enabled(s, RejectRow(t, r))
    ensures TxOk(Next(s, RejectRow(t, r)).db, t, Next(s, RejectRow(t, r)).txs[t])
  {
    assert TxOk(s.db, t, s.txs[t]);
  }

  lemma LockingKeeps(s: State, step: Step)
    requires Inv(s) && Enabled(s, step) && Locking(step)
    ensures FlagOk(Next(s, step).db)
    ensures forall u :: u in Next(s, step).txs ==> TxOk(Next(s, step).db, u, Next(s, step).txs[u])
  {
    var s' := Next(s, step);
    if step.RejectRow? {
      RejecterKeeps(s, step.t, step.r);
    } else if step.BlockReject? || step.BlockClose? {
      BlockLockerKeeps(s, step);
    } else {
      LockerKeeps(s, step);
    }
    forall u | u in s'.txs && u != step.t
      ensures TxOk(s'.db, u, s'.txs[u])
    {
      Unnoticed(s.db, s'.db, u, s.txs[u]);
    }
  }

  // ----- Joins -----

  lemma JoinKeeps(s: State, step: Step)
    requires Inv(s) && Enabled(s, step) && (step.Join? || step.Rejoin?) && !ReopensUnderWaiter(s, step)
    ensures FlagOk(Next(s, step).db)
    ensures forall u :: u in Next(s, step).txs ==> TxOk(Next(s, step).db, u, Next(s, step).txs[u])
  {
    var s' := Next(s, step);
    forall u | u in s'.txs
      ensures TxOk(s'.db, u, s'.txs[u])
    {
      assert TxOk(s.db, u, s.txs[u]);
      assert step.Rejoin? && !IsPending(s.db, step.r) ==> !(At(s, u, Found) && s.txs[u].request == step.r);
      Unnoticed(s.db, s'.db, u, s.txs[u]);
    }
  }

  // ----- Ends of transactions -----

  lemma AbortKeeps(s: State, t: TxId)
    requires Inv(s) && Enabled(s, Abort(t))
    ensures FlagOk(Next(s, Abort(t)).db)
    ensures forall u :: u in Next(s, Abort(t)).txs ==> TxOk(Next(s, Abort(t)).db, u, Next(s, Abort(t)).txs[u])
  {
    var s' := Next(s, Abort(t));
    forall u | u in s'.txs && u != t
      ensures TxOk(s'.db, u, s'.txs[u])
    {
      Unnoticed(s.db, s'.db, u, s.txs[u]);
    }
  }

  lemma BlockCommitKeeps(s: State, t: TxId)
    requires Inv(s) && Enabled(s, BlockCommit(t))
    ensures FlagOk(Next(s, BlockCommit(t)).db)
    ensures forall u :: u in Next(s, BlockCommit(t)).txs ==>
              TxOk(Next(s, BlockCommit(t)).db, u, Next(s, BlockCommit(t)).txs[u])
  {
    var s' := Next(s, BlockCommit(t));
    BlockCommitFlag(s, t);
    forall u | u in s'.txs
      ensures TxOk(s'.db, u, s'.txs[u])
    {
      if u != t {
        BlockCommitUnnoticed(s, t, u);
      }
    }
  }

  lemma BlockCommitFlag(s: State, t: TxId)
    requires Inv(s) && Enabled(s, BlockCommit(t))
    ensures FlagOk(Next(s, BlockCommit(t)).db)
  {
    assert TxOk(s.db, t, s.txs[t]);
    BlockCommitRows(s.db, t, s.txs[t]);
  }

  lemma BlockCommitUnnoticed(s: State, t: TxId, u: TxId)
    requires Inv(s) && Enabled(s, BlockCommit(t)) && u in s.txs && u != t
    ensures TxOk(Next(s, BlockCommit(t)).db, u, s.txs[u])
  {
    assert TxOk(s.db, t, s.txs[t]);
    BlockCommitRows(s.db, t, s.txs[t]);
    Unnoticed(s.db, Next(s, BlockCommit(t)).db, u, s.txs[u]);
  }

  // A block rejects no row but one it has locked, and on an open status it rejects none without
  // closing it.
  lemma BlockCommitRows(db: Shared, t: TxId, tx: Tx)
    requires OneWrite(db, t, tx)
    ensures forall r :: r in db.rows ==> r in (db.rows + tx.writes)
    ensures forall r :: r in db.rows && !LockedBy(db, r, t) ==> (db.rows + tx.writes)[r] == db.rows[r]
    ensures forall r :: r in (db.rows + tx.writes) && (db.rows + tx.writes)[r] == Pending ==> IsPending(db, r)
    ensures tx.writes == map[] ==> db.rows + tx.writes == db.rows
  {
  }

  // When an acceptance commits, the requests of all others that got past their first look are decided
  // by it, so no other can be in flight: it would hold the lock on a pending request of its own.
  lemma CommitExcludes(s: State, t: TxId)
    requires Inv(s) && At(s, t, Closed)
    ensures forall u :: u in s.txs && InFlight(s.txs[u].pc) ==> u == t
    ensures forall u :: u in s.txs && u != t && Looked(s.txs[u].pc) ==>
              !IsPending(Next(s, Commit(t)).db, s.txs[u].request)
  {
    assert TxOk(s.db, t, s.txs[t]);
    forall u | u in s.txs && u != t && Looked(s.txs[u].pc)
      ensures !InFlight(s.txs[u].pc)
      ensures !IsPending(Next(s, Commit(t)).db, s.txs[u].request)
    {
      assert TxOk(s.db, u, s.txs[u]) && Covers(s.db, s.txs[t], s.txs[u]);
    }
  }

  lemma CommitKeeps(s: State, t: TxId)
    requires Inv(s) && Enabled(s, Commit(t))
    ensures FlagOk(Next(s, Commit(t)).db)
    ensures forall u :: u in Next(s, Commit(t)).txs ==> TxOk(Next(s, Commit(t)).db, u, Next(s, Commit(t)).txs[u])
  {
    CommitExcludes(s, t);
    var s' := Next(s, Commit(t));
    assert TxOk(s.db, t, s.txs[t]);
    forall u | u in s'.txs && u != t
      ensures TxOk(s'.db, u, s'.txs[u])
    {
      assert TxOk(s.db, u, s.txs[u]);
    }
  }

  // ----- Who covers whom -----

  lemma ScanCovers(s: State, step: Step, u: TxId)
    requires Inv(s) && Enabled(s, step) && (step.Find? || step.BeginReject?)
    requires u in s.txs && u != step.t
    ensures var s' := Next(s, step);
      Covers(s'.db, s'.txs[step.t], s'.txs[u]) && Covers(s'.db, s'.txs[u], s'.txs[step.t])
  {
    assert TxOk(s.db, step.t, s.txs[step.t]) && TxOk(s.db, u, s.txs[u]);
    assert Covers(s.db, s.txs[step.t], s.txs[u]) && Covers(s.db, s.txs[u], s.txs[step.t]);
  }

  // A step that neither looks nor scans settles no less than before and waits for nothing new.
  lemma OwnStepCovers(s: State, step: Step, u: TxId)
    requires Inv(s) && Enabled(s, step) && (Private(step) || Locking(step)) && !step.Find? && !step.BeginReject?
    requires step.t in s.txs && u in s.txs && u != step.t
    ensures var s' := Next(s, step);
      Covers(s'.db, s'.txs[step.t], s'.txs[u]) && Covers(s'.db, s'.txs[u], s'.txs[step.t])
  {
    if Private(step) {
      PrivateSettles(s, step);
    } else {
      LockingSettles(s, step);
    }
    assert Covers(s.db, s.txs[step.t], s.txs[u]) && Covers(s.db, s.txs[u], s.txs[step.t]);
    CoversStay(s.db, Next(s, step).db, s.txs[step.t], Next(s, step).txs[step.t], s.txs[u]);
  }

  lemma CoversStay(db: Shared, db': Shared, tx: Tx, tx': Tx, other: Tx)
    requires Covers(db, tx, other) && Covers(db, other, tx) && SettlesNoLess(db, tx, tx') && db'.rows == db.rows
    ensures Covers(db', tx', other) && Covers(db', other, tx')
  {
  }

  ghost predicate SettlesNoLess(db: Shared, tx: Tx, tx': Tx) {
    && tx'.request == tx.request
    && (Scanned(tx'.pc) ==> Scanned(tx.pc)) && (Looked(tx'.pc) ==> Looked(tx.pc))
    && (forall r :: Scanned(tx'.pc) && Settles(tx, r) && IsPending(db, r) ==> Settles(tx', r))
  }

  lemma PrivateSettles(s: State, step: Step)
    requires Enabled(s, step) && Private(step) && step.t in s.txs && !step.Find? && !step.BeginReject?
    ensures SettlesNoLess(s.db, s.txs[step.t], Next(s, step).txs[step.t])
    ensures Next(s, step).db == s.db && Next(s, step).txs == s.txs[step.t := Next(s, step).txs[step.t]]
  {
  }

  lemma LockingSettles(s: State, step: Step)
    requires Enabled(s, step) && Locking(step)
    ensures SettlesNoLess(s.db, s.txs[step.t], Next(s, step).txs[step.t])
    ensures Next(s, step).db.rows == s.db.rows && Next(s, step).txs == s.txs[step.t := Next(s, step).txs[step.t]]
  {
  }

  lemma CommitCovers(s: State, step: Step, t: TxId, u: TxId)
    requires Inv(s) && Enabled(s, step) && (step.Commit? || step.BlockCommit?)
    requires t in s.txs && u in s.txs && t != u
    ensures Covers(Next(s, step).db, Next(s, step).txs[t], Next(s, step).txs[u])
  {
    assert Covers(s.db, s.txs[t], s.txs[u]);
    assert TxOk(s.db, step.t, s.txs[step.t]);
    assert step.t != t ==> TxOk(s.db, t, s.txs[t]);
  }

  lemma AbortCovers(s: State, step: Step, t: TxId, u: TxId)
    requires Inv(s) && Enabled(s, step) && step.Abort?
    requires t in s.txs && u in s.txs && t != u
    ensures Covers(Next(s, step).db, Next(s, step).txs[t], Next(s, step).txs[u])
  {
    assert Covers(s.db, s.txs[t], s.txs[u]);
  }

  lemma JoinCovers(s: State, step: Step, t: TxId, u: TxId)
    requires Inv(s) && Enabled(s, step) && (step.Join? || step.Rejoin?) && !ReopensUnderWaiter(s, step)
    requires t in s.txs && u in s.txs && t != u
    ensures Covers(Next(s, step).db, s.txs[t], s.txs[u])
  {
    assert Covers(s.db, s.txs[t], s.txs[u]) && TxOk(s.db, u, s.txs[u]);
    assert step.Rejoin? && !IsPending(s.db, step.r) ==> !(At(s, u, Found) && s.txs[u].request == step.r);
  }

  lemma CoversKeep(s: State, step: Step)
    requires Inv(s) && Enabled(s, step) && !ReopensUnderWaiter(s, step)
    ensures var s' := Next(s, step);
      forall t, u :: t in s'.txs && u in s'.txs && t != u ==> Covers(s'.db, s'.txs[t], s'.txs[u])
  {
    var s' := Next(s, step);
    forall t, u | t in s'.txs && u in s'.txs && t != u
      ensures Covers(s'.db, s'.txs[t], s'.txs[u])
    {
      if step.Join? || step.Rejoin? {
        JoinCovers(s, step, t, u);
      } else if step.Abort? {
        AbortCovers(s, step, t, u);
      } else if step.Commit? || step.BlockCommit? {
        CommitCovers(s, step, t, u);
      } else {
        OthersCovered(s, step, t, u);
      }
    }
  }

  // The rows and the other transactions are as before.
  lemma OthersUnchanged(s: State, step: Step, u: TxId)
    requires Enabled(s, step) && (Private(step) || Locking(step)) && u in Next(s, step).txs && u != step.t
    ensures u in s.txs && Next(s, step).txs[u] == s.txs[u] && Next(s, step).db.rows == s.db.rows
  {
  }

  lemma NewCovers(s: State, step: Step, u: TxId)
    requires Enabled(s, step) && (Private(step) || Locking(step)) && step.t !in s.txs
    requires u in s.txs && u != step.t
    ensures var s' := Next(s, step);
      Covers(s'.db, s'.txs[step.t], s'.txs[u]) && Covers(s'.db, s'.txs[u], s'.txs[step.t])
  {
  }

  lemma OtherCovered(s: State, step: Step, u: TxId)
    requires Inv(s) && Enabled(s, step) && (Private(step) || Locking(step)) && u in s.txs && u != step.t
    ensures var s' := Next(s, step);
      Covers(s'.db, s'.txs[step.t], s'.txs[u]) && Covers(s'.db, s'.txs[u], s'.txs[step.t])
  {
    if step.t !in s.txs {
      NewCovers(s, step, u);
    } else if step.Find? || step.BeginReject? {
      ScanCovers(s, step, u);
    } else {
      OwnStepCovers(s, step, u);
    }
  }

  lemma OthersCovered(s: State, step: Step, t: TxId, u: TxId)
    requires Inv(s) && Enabled(s, step) && (Private(step) || Locking(step))
    requires t in Next(s, step).txs && u in Next(s, step).txs && t != u
    ensures Covers(Next(s, step).db, Next(s, step).txs[t], Next(s, step).txs[u])
  {
    if t != step.t {
      OthersUnchanged(s, step, t);
    }
    if u != step.t {
      OthersUnchanged(s, step, u);
    }
    if t == step.t {
      OtherCovered(s, step, u);
    } else if u == step.t {
      OtherCovered(s, step, t);
    } else {
      assert Covers(s.db, s.txs[t], s.txs[u]);
    }
  }

  lemma StepKeeps(s: State, step: Step)
    requires Inv(s) && Enabled(s, step) && !ReopensUnderWaiter(s, step)
    ensures Inv(Next(s, step))
  {
    CoversKeep(s, step);
    if Private(step) {
      PrivateKeeps(s, step);
    } else if Locking(step) {
      LockingKeeps(s, step);
    } else if step.Join? || step.Rejoin? {
      JoinKeeps(s, step);
    } else {
      EndKeeps(s, step);
    }
  }

  lemma EndKeeps(s: State, step: Step)
    requires Inv(s) && Enabled(s, step) && (step.Commit? || step.Abort? || step.BlockCommit?)
    ensures FlagOk(Next(s, step).db)
    ensures forall u :: u in Next(s, step).txs ==> TxOk(Next(s, step).db, u, Next(s, step).txs[u])
  {
    match step
    case Commit(t) => CommitKeeps(s, t);
    case Abort(t) => AbortKeeps(s, t);
    case BlockCommit(t) => BlockCommitKeeps(s, t);
  }

  lemma {:induction false} RunKeeps(s: State, steps: seq<Step>)
    requires Inv(s) && Runs(s, steps) && Orderly(s, steps)
    ensures Inv(After(s, steps))
    decreases steps
  {
    if steps != [] {
      StepKeeps(s, steps[0]);
      RunKeeps(Next(s, steps[0]), steps[1..]);
    }
  }

  // ----- Locks and their owners, in every run -----

  // The transaction may hold the lock of this row: it has its own request locked, or it has visited
  // the row while rejecting.
  predicate OwnsRow(tx: Tx, r: RequestId) {
    if Scanned(tx.pc) then r !in Todo(tx.pc)
    else (InFlight(tx.pc) || BlockHolds(tx.pc)) && r == tx.request
  }

  predicate OwnsStatus(pc: Pc) {
    HoldsStatus(pc) || pc.BlockClosed?
  }

  // The rows a transaction is about to lock exist.
  ghost predicate RowsKnown(db: Shared, tx: Tx) {
    (tx.pc.Found? || tx.pc.BlockWaits? ==> tx.request in db.rows) && Todo(tx.pc) <= db.rows.Keys
  }

  ghost predicate LocksOwned(s: State) {
    && (forall r :: r in s.db.rowLocks ==>
          r in s.db.rows && s.db.rowLocks[r] in s.txs && OwnsRow(s.txs[s.db.rowLocks[r]], r))
    && (s.db.statusLock.Some? ==> s.db.statusLock.value in s.txs && OwnsStatus(s.txs[s.db.statusLock.value].pc))
    && (forall t :: t in s.txs ==> RowsKnown(s.db, s.txs[t]))
  }

  lemma NoOrphanPrivate(s: State, step: Step)
    requires LocksOwned(s) && Enabled(s, step) && Private(step)
    ensures LocksOwned(Next(s, step))
  {
    PrivateOwnsNoLess(s, step);
    OwnersStay(s, step.t, Next(s, step).txs[step.t]);
  }

  lemma PrivateOwnsNoLess(s: State, step: Step)
    requires LocksOwned(s) && Enabled(s, step) && Private(step)
    ensures step.t in Next(s, step).txs
    ensures var tx' := Next(s, step).txs[step.t];
      && Next(s, step) == State(s.db, s.txs[step.t := tx'])
      && RowsKnown(s.db, tx')
      && (step.t in s.txs ==> OwnsNoLess(s.txs[step.t], tx'))
  {
    assert step.t in s.txs ==> RowsKnown(s.db, s.txs[step.t]);
  }

  ghost predicate OwnsNoLess(tx: Tx, tx': Tx) {
    (forall r :: OwnsRow(tx, r) ==> OwnsRow(tx', r)) && (OwnsStatus(tx.pc) ==> OwnsStatus(tx'.pc))
  }

  lemma OwnersStay(s: State, t: TxId, tx: Tx)
    requires LocksOwned(s) && RowsKnown(s.db, tx) && (t in s.txs ==> OwnsNoLess(s.txs[t], tx))
    ensures LocksOwned(State(s.db, s.txs[t := tx]))
  {
  }

  lemma NoOrphanRow(s: State, step: Step)
    requires LocksOwned(s) && Enabled(s, step) && (step.LockRow? || step.RejectRow? || step.BlockReject?)
    ensures LocksOwned(Next(s, step))
  {
    assert RowsKnown(s.db, s.txs[step.t]);
  }

  lemma NoOrphanStatus(s: State, step: Step)
    requires LocksOwned(s) && Enabled(s, step) && (step.LockStatus? || step.BlockClose?)
    ensures LocksOwned(Next(s, step))
  {
    assert RowsKnown(s.db, s.txs[step.t]);
  }

  lemma NoOrphanEnd(s: State, step: Step)
    requires LocksOwned(s) && Enabled(s, step) && !Private(step) && !Locking(step)
    ensures LocksOwned(Next(s, step))
  {
  }

  lemma NoOrphanStep(s: State, step: Step)
    requires LocksOwned(s) && Enabled(s, step)
    ensures LocksOwned(Next(s, step))
  {
    if Private(step) {
      NoOrphanPrivate(s, step);
    } else if step.LockStatus? || step.BlockClose? {
      NoOrphanStatus(s, step);
    } else if Locking(step) {
      NoOrphanRow(s, step);
    } else {
      NoOrphanEnd(s, step);
    }
  }

  // Every lock belongs to a transaction that needs it.
  lemma {:induction false} NoOrphans(s: State, steps: seq<Step>)
    requires LocksOwned(s) && Runs(s, steps)
    ensures LocksOwned(After(s, steps))
    decreases steps
  {
    if steps != [] {
      NoOrphanStep(s, steps[0]);
      NoOrphans(Next(s, steps[0]), steps[1..]);
    }
  }

  // ----- The results -----

  // However the statements interleave, at most one acceptance of the status commits, as long as no
  // request is reopened under a transaction that waits for it.
  lemma AtMostOneCommit(s: State, steps: seq<Step>)
    requires Initial(s) && Runs(s, steps) && Orderly(s, steps)
    ensures var end := After(s, steps);
      && |end.db.commits| <= 1
      && forall t, u :: At(end, t, Committed) && At(end, u, Committed) ==> t == u
  {
    RunKeeps(s, steps);
    var end := After(s, steps);
    forall t, u | At(end, t, Committed) && At(end, u, Committed)
      ensures t == u
    {
      assert TxOk(end.db, t, end.txs[t]) && TxOk(end.db, u, end.txs[u]);
    }
  }

  // What an acceptance of this request makes of the rows.  A row that was reopened after its
  // transaction had chosen which ones to reject stays pending.
  ghost predicate DecidedUpTo(rows: map<RequestId, RequestState>, rows': map<RequestId, RequestState>, r: RequestId) {
    && rows'.Keys == rows.Keys && r in rows && rows'[r] == Accepted
    && forall q :: q in rows ==> rows'[q] == Decide(rows, r)[q] || (rows[q] == Pending && rows'[q] == Pending)
  }

  lemma CommitDecidesUpTo(s: State, t: TxId)
    requires Inv(s) && At(s, t, Closed)
    ensures DecidedUpTo(s.db.rows, s.db.rows + s.txs[t].writes, s.txs[t].request)
    ensures s.db.active ==> s.db.rows + s.txs[t].writes == Decide(s.db.rows, s.txs[t].request)
  {
    assert TxOk(s.db, t, s.txs[t]);
  }

  // Committing now has the effect of the whole transaction executed alone at this moment, exactly
  // when no block has closed the status in the meantime: its conditions still hold of the committed
  // state, and the requests are decided as one.  After a block its request is accepted all the same,
  // and the others are rejected except those reopened since.
  ghost predicate SerialUnlessBlocked(s: State, t: TxId)
    requires At(s, t, Closed)
  {
    var db, after, request := s.db, Next(s, Commit(t)), s.txs[t].request;
    && (Matches(db, s.txs[t]) <==> db.active)
    && DecidedUpTo(db.rows, after.db.rows, request)
    && (db.active ==> after.db.rows == Decide(db.rows, request) && after.db.rowLocks == map[])
    && (forall u :: u in after.txs ==> !InFlight(after.txs[u].pc))
    && !after.db.active && after.db.statusLock.None?
  }

  lemma CommitEffect(s: State, t: TxId)
    requires Inv(s) && LocksOwned(s) && At(s, t, Closed)
    ensures SerialUnlessBlocked(s, t)
  {
    CommitDecidesUpTo(s, t);
    CommitEndsAlone(s, t);
    if s.db.active {
      CommitFreesAll(s, t);
    }
  }

  lemma CommitEndsAlone(s: State, t: TxId)
    requires Inv(s) && At(s, t, Closed)
    ensures var after := Next(s, Commit(t));
      && (Matches(s.db, s.txs[t]) <==> s.db.active)
      && after.db.rows == s.db.rows + s.txs[t].writes && !after.db.active && after.db.statusLock.None?
      && forall u :: u in after.txs ==> !InFlight(after.txs[u].pc)
  {
    assert TxOk(s.db, t, s.txs[t]);
    CommitExcludes(s, t);
  }

  // So it is with every commit of every orderly run.
  lemma CommitIsSerial(s: State, steps: seq<Step>, t: TxId)
    requires Initial(s) && Runs(s, steps) && Orderly(s, steps)
    requires At(After(s, steps), t, Closed)
    ensures SerialUnlessBlocked(After(s, steps), t)
  {
    RunKeeps(s, steps);
    NoOrphans(s, steps);
    CommitEffect(After(s, steps), t);
  }

  lemma CommitFreesAll(s: State, t: TxId)
    requires Inv(s) && LocksOwned(s) && At(s, t, Closed) && s.db.active
    ensures Next(s, Commit(t)).db.rowLocks == map[]
  {
    assert TxOk(s.db, t, s.txs[t]);
    assert forall r :: r in s.db.rowLocks ==> IsPending(s.db, r) && r in s.txs[t].writes;
  }

  // A transaction that has locked its own request and then sees another one commit has aborted.
  lemma LoserOnlyAborts(s: State, before: seq<Step>, steps: seq<Step>, t: TxId)
    requires Initial(s) && Runs(s, before) && Orderly(s, before)
    requires var mid := After(s, before);
      Runs(mid, steps) && Orderly(mid, steps) && t in mid.txs && InFlight(mid.txs[t].pc)
    requires var end := After(After(s, before), steps); end.db.commits != [] && end.db.commits != [t]
    ensures At(After(After(s, before), steps), t, Aborted)
  {
    var mid := After(s, before);
    RunKeeps(s, before);
    RunKeeps(mid, steps);
    NeverBack(mid, steps, t);
    var end := After(mid, steps);
    assert TxOk(end.db, t, end.txs[t]);
  }

  lemma {:induction false} NeverBack(s: State, steps: seq<Step>, t: TxId)
    requires Runs(s, steps) && t in s.txs
    requires InFlight(s.txs[t].pc) || s.txs[t].pc.Committed? || s.txs[t].pc.Aborted?
    ensures t in After(s, steps).txs
    ensures var pc := After(s, steps).txs[t].pc; InFlight(pc) || pc.Committed? || pc.Aborted?
    decreases steps
  {
    if steps != [] {
      NeverBack(Next(s, steps[0]), steps[1..], t);
    }
  }
}

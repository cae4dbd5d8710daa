/**
 Live statuses over whole runs: joining can turn a decided request back to pending, and still no
 status is ever accepted twice.
 */
module StatusRuns {
  import opened Options
  import opened Requests
  import opened Calendar
  import opened Tables
  import AcceptProtocol
  import Moderation

  // A decided request belongs to an inactive status.
  ghost predicate DecidedClosed(db: Db) {
    && (forall id :: id in db.statuses ==> id < db.nextId)
    && (forall k :: k in db.requests ==>
          k.0 in db.statuses && (db.requests[k] == Pending || !db.statuses[k.0].active))
  }

  lemma DecidedClosedStep(db: Db, e: Event)
    requires DecidedClosed(db)
    ensures DecidedClosed(Apply(db, e))
  {
    if e.Block? {
      BlockCloses(db, e.blocker, e.blocked);
    } else if !e.CreateStatus? && !e.Join? && !e.Accept? {
      UntouchedStatuses(db, e);
      UntouchedRequests(db, e);
      IdsGrow(db, e);
    }
  }

  // Every request a block rejects belongs to a status that it closes.
  lemma BlockCloses(db: Db, a: UserId, b: UserId)
    requires DecidedClosed(db)
    ensures DecidedClosed(BlockTx(db, a, b))
  {
    var after := BlockTx(db, a, b);
    forall k | k in after.requests
      ensures k.0 in after.statuses && (after.requests[k] == Pending || !after.statuses[k.0].active)
    {
      if ValidPair(db, a, b) && RequestBetween(db.statuses, k, a, b) && db.requests[k] == Pending {
        assert RejectedBetween(after.requests, k.0, db.statuses[k.0], a, b);
      }
    }
  }

  lemma {:induction false} DecidedClosedRun(db: Db, es: seq<Event>)
    requires DecidedClosed(db)
    ensures DecidedClosed(Run(db, es))
    decreases es
  {
    if es != [] {
      DecidedClosedRun(db, es[..|es| - 1]);
      DecidedClosedStep(Run(db, es[..|es| - 1]), es[|es| - 1]);
    }
  }

  predicate Inactive(db: Db, status: Id) {
    status in db.statuses && !db.statuses[status].active
  }

  // No transaction makes a status active again.
  lemma InactiveStep(db: Db, e: Event, status: Id)
    requires DecidedClosed(db) && Inactive(db, status)
    ensures Inactive(Apply(db, e), status)
  {
  }

  lemma {:induction false} InactiveForever(db: Db, es: seq<Event>, status: Id)
    requires DecidedClosed(db) && Inactive(db, status)
    ensures Inactive(Run(db, es), status)
    decreases es
  {
    if es != [] {
      InactiveForever(db, es[..|es| - 1], status);
      DecidedClosedRun(db, es[..|es| - 1]);
      InactiveStep(Run(db, es[..|es| - 1]), es[|es| - 1], status);
    }
  }

  // The i-th transaction of the run accepts a request to join this status.
  predicate AcceptsAt(db: Db, es: seq<Event>, i: nat, status: Id) {
    && i < |es| && es[i].Accept? && es[i].status == status
    && CanAccept(Run(db, es[..i]), status, es[i].requester, es[i].caller)
  }

  lemma InactiveAfterAccept(db: Db, es: seq<Event>, status: Id, i: nat, j: nat)
    requires DecidedClosed(db) && AcceptsAt(db, es, i, status) && i < j <= |es|
    ensures Inactive(Run(db, es[..j]), status)
  {
    RunNext(db, es, i);
    DecidedClosedRun(db, es[..i + 1]);
    InactiveForever(Run(db, es[..i + 1]), es[i + 1..j], status);
    RunSplit(db, es, i + 1, j);
  }

  // Over every serial run, a status is accepted at most once.
  lemma AcceptedAtMostOnce(distance: (Pos, Pos) -> real, start: Time, es: seq<Event>, status: Id, i: nat, j: nat)
    requires AcceptsAt(Empty(distance, start), es, i, status)
    requires AcceptsAt(Empty(distance, start), es, j, status)
    ensures i == j
  {
    if i < j {
      InactiveAfterAccept(Empty(distance, start), es, status, i, j);
    } else if j < i {
      InactiveAfterAccept(Empty(distance, start), es, status, j, i);
    }
  }

  // Joining reopens a decided request, so it is the status flag that keeps the winner unique: after
  // an acceptance any request to the status can be pending again, and none of them can be accepted.
  lemma RejoinReopens(distance: (Pos, Pos) -> real, start: Time, es: seq<Event>, status: Id, requester: UserId)
    requires var db := History(distance, start, es); status in db.statuses && requester in db.users
    ensures var after := History(distance, start, es + [Join(status, requester)]);
      && (status, requester) in after.requests && after.requests[(status, requester)] == Pending
      && (Inactive(History(distance, start, es), status) ==>
            forall caller :: !CanAccept(after, status, requester, caller))
  {
    RunConcat(Empty(distance, start), es, [Join(status, requester)]);
    var db := History(distance, start, es);
    assert Run(db, [Join(status, requester)]) == Apply(Run(db, []), Join(status, requester)) by {
      assert [Join(status, requester)][..0] == [];
    }
  }

  // Accepting decides the requests of that status all at once and touches no other status.
  lemma AcceptDecides(db: Db, status: Id, requester: UserId, caller: UserId)
    requires CanAccept(db, status, requester, caller)
    ensures var after := AcceptTx(db, status, requester, caller);
      && RequestsOf(after, status) == Decide(RequestsOf(db, status), requester)
      && Inactive(after, status)
      && forall other :: other != status ==>
           RequestsOf(after, other) == RequestsOf(db, other)
           && (other in after.statuses <==> other in db.statuses)
           && (other in db.statuses ==> after.statuses[other] == db.statuses[other])
  {
    var after := AcceptTx(db, status, requester, caller);
    forall other
      ensures other != status ==> RequestsOf(after, other) == RequestsOf(db, other)
    {
    }
  }

  // In a serial run, a block leaves no open status between the two users at all.
  lemma BlockLeavesNoOpenStatus(distance: (Pos, Pos) -> real, start: Time, es: seq<Event>, a: UserId, b: UserId)
    requires ValidPair(History(distance, start, es), a, b)
    ensures var after := BlockTx(History(distance, start, es), a, b);
      forall k :: k in after.requests && RequestBetween(after.statuses, k, a, b) ==> Inactive(after, k.0)
  {
    var db := History(distance, start, es);
    DecidedClosedRun(Empty(distance, start), es);
    BlockCloses(db, a, b);
    var after := BlockTx(db, a, b);
    forall k | k in after.requests && RequestBetween(after.statuses, k, a, b)
      ensures Inactive(after, k.0)
    {
      assert RequestBetween(db.statuses, k, a, b) && after.requests[k] != Pending;
    }
  }

  // On one status with a pending request between the pair, a block does what the block of the
  // statement-level protocol does when it runs alone (AcceptOutcomes.BlockRuns).
  lemma BlockOnOneStatus(db: Db, a: UserId, b: UserId, status: Id)
    requires ValidPair(db, a, b) && status in db.statuses && db.statuses[status].owner == a
    requires (status, b) in db.requests && db.requests[(status, b)] == Pending
    ensures var after := BlockTx(db, a, b);
      && RequestsOf(after, status) == RequestsOf(db, status)[b := Rejected]
      && after.statuses[status] == db.statuses[status].(active := false)
      && BlockTx(db, b, a).statuses == after.statuses && BlockTx(db, b, a).requests == after.requests
  {
    Moderation.BlockSymmetric(db, a, b);
    var after := BlockTx(db, a, b);
    assert IsRejected(after.requests, (status, b));
  }

  // Any status of any serial run is a proper starting point of the statement-level protocol.
  lemma ProtocolStartsHere(distance: (Pos, Pos) -> real, start: Time, es: seq<Event>, status: Id)
    requires status in History(distance, start, es).statuses
    ensures var db := History(distance, start, es);
      AcceptProtocol.Initial(AcceptProtocol.State(
        AcceptProtocol.Shared(db.statuses[status].owner, RequestsOf(db, status), db.statuses[status].active,
                              map[], None, []),
        map[]))
  {
    DecidedClosedRun(Empty(distance, start), es);
  }
}

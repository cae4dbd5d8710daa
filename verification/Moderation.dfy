/**
 Blocking: what one block changes, how blocks combine, and what stays true in every run that
 contains one.
 */
module Moderation {
  import opened Requests
  import opened Calendar
  import opened Tables

  // ----- One block, two blocks -----

  lemma BlockIdempotent(db: Db, a: UserId, b: UserId)
    ensures BlockTx(BlockTx(db, a, b), a, b) == BlockTx(db, a, b)
  {
    var once := BlockTx(db, a, b);
    if ValidPair(db, a, b) {
      assert RejectBetween(once.statuses, once.requests, a, b) == once.requests;
      assert CloseBetween(once.statuses, once.requests, a, b) == once.statuses;
      assert Unmatch(once.matches, a, b) == once.matches;
      assert CascadeMessages(once.messages, once.matches, a, b) == once.messages;
    }
  }

  // Apart from who blocked whom, blocking is symmetric.
  lemma BlockSymmetric(db: Db, a: UserId, b: UserId)
    ensures BlockTx(db, a, b).(blocks := {}) == BlockTx(db, b, a).(blocks := {})
  {
    RejectSymmetric(db.statuses, db.requests, a, b);
    CloseSymmetric(db.statuses, RejectBetween(db.statuses, db.requests, a, b), a, b);
    assert Unmatch(db.matches, a, b) == Unmatch(db.matches, b, a);
    assert CascadeMessages(db.messages, db.matches, a, b) == CascadeMessages(db.messages, db.matches, b, a);
  }

  lemma RejectSymmetric(statuses: map<Id, Status>, requests: map<RequestKey, RequestState>, a: UserId, b: UserId)
    ensures RejectBetween(statuses, requests, a, b) == RejectBetween(statuses, requests, b, a)
  {
  }

  lemma CloseSymmetric(statuses: map<Id, Status>, requests: map<RequestKey, RequestState>, a: UserId, b: UserId)
    ensures CloseBetween(statuses, requests, a, b) == CloseBetween(statuses, requests, b, a)
  {
  }

  lemma BlocksCommute(db: Db, a: UserId, b: UserId, c: UserId, d: UserId)
    ensures BlockTx(BlockTx(db, a, b), c, d) == BlockTx(BlockTx(db, c, d), a, b)
  {
    if ValidPair(db, a, b) && ValidPair(db, c, d) {
      var ab, cd := BlockTx(db, a, b), BlockTx(db, c, d);
      RejectionsCommute(db, a, b, c, d);
      ClosingsCommute(db, a, b, c, d);
      CascadesCommute(db.messages, db.matches, a, b, c, d);
      assert ab.blocks + {(c, d)} == cd.blocks + {(a, b)};
    }
  }

  lemma CascadesCommute(messages: map<Id, Message>, matches: map<Id, Match>, a: UserId, b: UserId, c: UserId, d: UserId)
    ensures var ab, cd := Unmatch(matches, a, b), Unmatch(matches, c, d);
      && Unmatch(ab, c, d) == Unmatch(cd, a, b)
      && CascadeMessages(CascadeMessages(messages, matches, a, b), ab, c, d)
      == CascadeMessages(CascadeMessages(messages, matches, c, d), cd, a, b)
  {
  }

  lemma RejectionsCommute(db: Db, a: UserId, b: UserId, c: UserId, d: UserId)
    requires ValidPair(db, a, b) && ValidPair(db, c, d)
    ensures BlockTx(BlockTx(db, a, b), c, d).requests == BlockTx(BlockTx(db, c, d), a, b).requests
  {
  }

  // A status closes in either order when a request between the owner and the other user of either
  // pair ends up rejected, and each pair rejects only its own requests.
  lemma ClosingsCommute(db: Db, a: UserId, b: UserId, c: UserId, d: UserId)
    requires ValidPair(db, a, b) && ValidPair(db, c, d)
    ensures BlockTx(BlockTx(db, a, b), c, d).statuses == BlockTx(BlockTx(db, c, d), a, b).statuses
  {
    var ab, cd := BlockTx(db, a, b), BlockTx(db, c, d);
    var abcd, cdab := BlockTx(ab, c, d), BlockTx(cd, a, b);
    forall id | id in db.statuses
      ensures abcd.statuses[id] == cdab.statuses[id]
    {
      OwnPairOnly(db, id, a, b, c, d);
      OwnPairOnly(db, id, c, d, a, b);
    }
    assert abcd.statuses.Keys == cdab.statuses.Keys;
  }

  lemma OwnPairOnly(db: Db, id: Id, a: UserId, b: UserId, c: UserId, d: UserId)
    requires ValidPair(db, a, b) && ValidPair(db, c, d) && id in db.statuses
    ensures RejectedBetween(BlockTx(db, a, b).requests, id, db.statuses[id], a, b)
        <==> RejectedBetween(BlockTx(BlockTx(db, c, d), a, b).requests, id, db.statuses[id], a, b)
  {
    var s := db.statuses[id];
    assert BlockTx(db, c, d).statuses[id].owner == s.owner;
  }

  // ----- After a block -----

  // Nothing is left between the pair: no match, no message of one, no pending request, and no
  // active status of one of them to which the other has a request, unless an acceptance decided it.
  lemma BlockSeparates(db: Db, a: UserId, b: UserId)
    requires ValidPair(db, a, b)
    ensures var after := BlockTx(db, a, b);
      && !HasMatch(after, a, b)
      && (forall i :: i in after.messages && after.messages[i].matchId in db.matches ==>
            !Joins(db.matches[after.messages[i].matchId], a, b))
      && (forall k :: k in after.requests && RequestBetween(after.statuses, k, a, b) ==> after.requests[k] != Pending)
      && (forall k :: IsRejected(after.requests, k) && RequestBetween(after.statuses, k, a, b) ==>
            !after.statuses[k.0].active)
  {
    var after := BlockTx(db, a, b);
    forall k | k in after.requests && RequestBetween(after.statuses, k, a, b)
      ensures after.requests[k] != Pending
      ensures after.requests[k] == Rejected ==> !after.statuses[k.0].active
    {
      assert RequestBetween(db.statuses, k, a, b);
    }
  }

  // Some request between the two for this status is rejected.
  ghost predicate HasRejected(statuses: map<Id, Status>, requests: map<RequestKey, RequestState>, id: Id,
                              a: UserId, b: UserId)
  {
    exists k :: k in requests && requests[k] == Rejected && k.0 == id && RequestBetween(statuses, k, a, b)
  }

  // And nothing else changes: what does not join the pair is kept as it was.
  lemma BlockTouchesOnlyThePair(db: Db, a: UserId, b: UserId)
    ensures var after := BlockTx(db, a, b);
      && (forall m :: m in db.matches && !Joins(db.matches[m], a, b) ==>
            m in after.matches && after.matches[m] == db.matches[m])
      && (forall i :: i in db.messages && db.messages[i].matchId in after.matches ==>
            i in after.messages && after.messages[i] == db.messages[i])
      && (forall k :: k in db.requests && !RequestBetween(db.statuses, k, a, b) ==>
            k in after.requests && after.requests[k] == db.requests[k])
      && (forall k :: k in db.requests && db.requests[k] != Pending ==>
            k in after.requests && after.requests[k] == db.requests[k])
      && (forall id :: id in db.statuses && !HasRejected(db.statuses, after.requests, id, a, b) ==>
            id in after.statuses && after.statuses[id] == db.statuses[id])
      && after.users == db.users && after.profiles == db.profiles && after.swipes == db.swipes
  {
  }

  // ----- Messages over whole runs -----

  // Every message belongs to a match that exists, and one of its two users sent it.
  ghost predicate MessagesOk(db: Db) {
    && (forall m :: m in db.matches ==> m < db.nextId)
    && (forall i :: i in db.messages ==>
          && db.messages[i].matchId in db.matches
          && var m := db.matches[db.messages[i].matchId];
             db.messages[i].sender == m.user1 || db.messages[i].sender == m.user2)
  }

  lemma MessagesOkStep(db: Db, e: Event)
    requires MessagesOk(db)
    ensures MessagesOk(Apply(db, e))
  {
    match e
    case Block(a, b) => MessagesOkBlock(db, a, b);
    case Swipe(x, y, action) => MessagesOkSwipe(db, x, y, action);
    case SendDateRequest(sender, matchId) => MessagesOkSend(db, sender, matchId);
    case _ =>
      UntouchedMatches(db, e);
      UntouchedMessages(db, e);
  }

  lemma MessagesOkBlock(db: Db, a: UserId, b: UserId)
    requires MessagesOk(db)
    ensures MessagesOk(BlockTx(db, a, b))
  {
  }

  lemma MessagesOkSwipe(db: Db, x: UserId, y: UserId, action: Action)
    requires MessagesOk(db)
    ensures MessagesOk(SwipeTx(db, x, y, action))
  {
  }

  lemma MessagesOkSend(db: Db, sender: UserId, matchId: Id)
    requires MessagesOk(db)
    ensures MessagesOk(SendTx(db, sender, matchId))
  {
  }

  lemma {:induction false} MessagesOkRun(db: Db, es: seq<Event>)
    requires MessagesOk(db)
    ensures MessagesOk(Run(db, es))
    decreases es
  {
    if es != [] {
      MessagesOkRun(db, es[..|es| - 1]);
      MessagesOkStep(Run(db, es[..|es| - 1]), es[|es| - 1]);
    }
  }

  lemma MessagesAlwaysOk(distance: (Pos, Pos) -> real, start: Time, es: seq<Event>)
    ensures MessagesOk(History(distance, start, es))
  {
    MessagesOkRun(Empty(distance, start), es);
  }

  // ----- Blocks over whole runs -----

  predicate Blocked(db: Db, a: UserId, b: UserId) {
    (a, b) in db.blocks || (b, a) in db.blocks
  }

  lemma BlockedStep(db: Db, e: Event, a: UserId, b: UserId)
    requires Blocked(db, a, b)
    ensures Blocked(Apply(db, e), a, b)
  {
  }

  // There is no way to take a block back.
  lemma {:induction false} BlockedForever(db: Db, es: seq<Event>, a: UserId, b: UserId)
    requires Blocked(db, a, b)
    ensures Blocked(Run(db, es), a, b)
    decreases es
  {
    if es != [] {
      BlockedForever(db, es[..|es| - 1], a, b);
      BlockedStep(Run(db, es[..|es| - 1]), es[|es| - 1], a, b);
    }
  }
}

/**
 The matches table as a function of the history of events: who is matched with whom after a run can
 be read off the run itself, without the tables.
 */
module MatchHistory {
  import opened Options
  import opened Calendar
  import opened Tables

  // ----- What the history says -----

  // The user registered before the i-th event.
  predicate Known(es: seq<Event>, i: nat, u: UserId)
    requires i <= |es|
  {
    exists j :: 0 <= j < i && es[j].Register? && es[j].user == u
  }

  // The i-th event is a swipe by a on b that reaches the table.
  predicate SwipeAt(es: seq<Event>, i: nat, a: UserId, b: UserId, action: Action)
    requires i < |es|
  {
    es[i] == Swipe(a, b, action) && a != b && Known(es, i, a) && Known(es, i, b)
  }

  // Just before the i-th event, the latest swipe by a on b was a like.
  predicate LatestIsLike(es: seq<Event>, i: nat, a: UserId, b: UserId)
    requires i <= |es|
  {
    exists j :: 0 <= j < i && SwipeAt(es, j, a, b, Like) && forall k :: j < k < i ==> es[k] != Swipe(a, b, Dislike)
  }

  // The i-th event is a like between the two that meets a standing like of the other side.
  predicate MutualLikeAt(es: seq<Event>, i: nat, a: UserId, b: UserId)
    requires i < |es|
  {
    || (SwipeAt(es, i, a, b, Like) && LatestIsLike(es, i, b, a))
    || (SwipeAt(es, i, b, a, Like) && LatestIsLike(es, i, a, b))
  }

  predicate IsBlockBetween(e: Event, a: UserId, b: UserId) {
    e == Block(a, b) || e == Block(b, a)
  }

  // A like met a standing like, and no block between the two came after it.
  predicate MatchedByHistory(es: seq<Event>, a: UserId, b: UserId) {
    exists i :: 0 <= i < |es| && MutualLikeAt(es, i, a, b) && forall k :: i < k < |es| ==> !IsBlockBetween(es[k], a, b)
  }

  // ----- How the history says it of one more event -----

  lemma KnownExtends(es: seq<Event>, e: Event, i: nat, u: UserId)
    requires i <= |es|
    ensures Known(es + [e], i, u) <==> Known(es, i, u)
  {
    assert forall j :: 0 <= j < i ==> (es + [e])[j] == es[j];
  }

  lemma KnownNext(es: seq<Event>, e: Event, u: UserId)
    ensures Known(es + [e], |es| + 1, u) <==> Known(es, |es|, u) || (e.Register? && e.user == u)
  {
    KnownExtends(es, e, |es|, u);
    if e.Register? && e.user == u {
      assert (es + [e])[|es|] == e;
    }
    if Known(es, |es|, u) {
      var j :| 0 <= j < |es| && es[j].Register? && es[j].user == u;
      assert (es + [e])[j] == es[j];
    }
  }

  lemma SwipeExtends(es: seq<Event>, e: Event, i: nat, a: UserId, b: UserId, action: Action)
    requires i < |es|
    ensures SwipeAt(es + [e], i, a, b, action) <==> SwipeAt(es, i, a, b, action)
  {
    KnownExtends(es, e, i, a);
    KnownExtends(es, e, i, b);
  }

  lemma LatestExtends(es: seq<Event>, e: Event, i: nat, a: UserId, b: UserId)
    requires i <= |es|
    ensures LatestIsLike(es + [e], i, a, b) <==> LatestIsLike(es, i, a, b)
  {
    forall j | 0 <= j < i
      ensures SwipeAt(es + [e], j, a, b, Like) <==> SwipeAt(es, j, a, b, Like)
    {
      SwipeExtends(es, e, j, a, b, Like);
    }
    assert forall k :: 0 <= k < i ==> (es + [e])[k] == es[k];
  }

  lemma SwipeLast(es: seq<Event>, e: Event, a: UserId, b: UserId, action: Action)
    ensures SwipeAt(es + [e], |es|, a, b, action)
       <==> e == Swipe(a, b, action) && a != b && Known(es, |es|, a) && Known(es, |es|, b)
  {
    KnownExtends(es, e, |es|, a);
    KnownExtends(es, e, |es|, b);
  }

  lemma LatestNext(es: seq<Event>, e: Event, a: UserId, b: UserId)
    ensures LatestIsLike(es + [e], |es| + 1, a, b) <==>
      || (e == Swipe(a, b, Like) && a != b && Known(es, |es|, a) && Known(es, |es|, b))
      || (LatestIsLike(es, |es|, a, b) && e != Swipe(a, b, Dislike))
  {
    var es' := es + [e];
    SwipeLast(es, e, a, b, Like);
    forall j | 0 <= j < |es|
      ensures SwipeAt(es', j, a, b, Like) <==> SwipeAt(es, j, a, b, Like)
    {
      SwipeExtends(es, e, j, a, b, Like);
    }
    assert forall k :: 0 <= k < |es| ==> es'[k] == es[k];
    if LatestIsLike(es, |es|, a, b) && e != Swipe(a, b, Dislike) {
      var j :| 0 <= j < |es| && SwipeAt(es, j, a, b, Like)
               && forall k :: j < k < |es| ==> es[k] != Swipe(a, b, Dislike);
      assert SwipeAt(es', j, a, b, Like) && forall k :: j < k < |es| + 1 ==> es'[k] != Swipe(a, b, Dislike);
    }
    if LatestIsLike(es', |es| + 1, a, b) {
      var j :| 0 <= j < |es| + 1 && SwipeAt(es', j, a, b, Like)
               && forall k :: j < k < |es| + 1 ==> es'[k] != Swipe(a, b, Dislike);
      if j < |es| {
        assert es'[|es|] == e;
        assert SwipeAt(es, j, a, b, Like) && forall k :: j < k < |es| ==> es[k] != Swipe(a, b, Dislike);
      }
    }
  }

  lemma MutualExtends(es: seq<Event>, e: Event, i: nat, a: UserId, b: UserId)
    requires i < |es|
    ensures MutualLikeAt(es + [e], i, a, b) <==> MutualLikeAt(es, i, a, b)
  {
    SwipeExtends(es, e, i, a, b, Like);
    SwipeExtends(es, e, i, b, a, Like);
    LatestExtends(es, e, i, a, b);
    LatestExtends(es, e, i, b, a);
  }

  // The new event is itself a like that meets a standing like.
  predicate Completes(es: seq<Event>, e: Event, a: UserId, b: UserId) {
    && a != b && Known(es, |es|, a) && Known(es, |es|, b)
    && ( || (e == Swipe(a, b, Like) && LatestIsLike(es, |es|, b, a))
         || (e == Swipe(b, a, Like) && LatestIsLike(es, |es|, a, b)))
  }

  lemma MatchedNext(es: seq<Event>, e: Event, a: UserId, b: UserId)
    ensures MatchedByHistory(es + [e], a, b)
       <==> Completes(es, e, a, b) || (MatchedByHistory(es, a, b) && !IsBlockBetween(e, a, b))
  {
    var es' := es + [e];
    SwipeLast(es, e, a, b, Like);
    SwipeLast(es, e, b, a, Like);
    LatestExtends(es, e, |es|, a, b);
    LatestExtends(es, e, |es|, b, a);
    assert MutualLikeAt(es', |es|, a, b) <==> Completes(es, e, a, b);
    forall i | 0 <= i < |es|
      ensures MutualLikeAt(es', i, a, b) <==> MutualLikeAt(es, i, a, b)
    {
      MutualExtends(es, e, i, a, b);
    }
    assert forall k :: 0 <= k < |es| ==> es'[k] == es[k];
    MatchedStays(es, e, a, b);
    if MatchedByHistory(es', a, b) {
      var i :| 0 <= i < |es'| && MutualLikeAt(es', i, a, b)
               && forall k :: i < k < |es'| ==> !IsBlockBetween(es'[k], a, b);
      if i < |es| {
        assert es'[|es|] == e;
        assert MutualLikeAt(es, i, a, b) && forall k :: i < k < |es| ==> !IsBlockBetween(es[k], a, b);
      }
    }
  }

  lemma MatchedStays(es: seq<Event>, e: Event, a: UserId, b: UserId)
    ensures MatchedByHistory(es, a, b) && !IsBlockBetween(e, a, b) ==> MatchedByHistory(es + [e], a, b)
  {
    if MatchedByHistory(es, a, b) && !IsBlockBetween(e, a, b) {
      var es' := es + [e];
      var i :| 0 <= i < |es| && MutualLikeAt(es, i, a, b) && forall k :: i < k < |es| ==> !IsBlockBetween(es[k], a, b);
      MutualExtends(es, e, i, a, b);
      assert MutualLikeAt(es', i, a, b) && forall k :: i < k < |es'| ==> !IsBlockBetween(es'[k], a, b);
    }
  }

  // ----- What the tables say of one more event -----

  // Each pair of users has at most one match, stored smaller id first, never with oneself.
  ghost predicate MatchesOk(db: Db) {
    && (forall m :: m in db.matches ==>
          m < db.nextId && db.matches[m].user1 < db.matches[m].user2
          && db.matches[m].user1 in db.users && db.matches[m].user2 in db.users)
    && (forall m, n :: m in db.matches && n in db.matches && db.matches[m] == db.matches[n] ==> m == n)
  }

  lemma MatchesOkStep(db: Db, e: Event)
    requires MatchesOk(db)
    ensures MatchesOk(Apply(db, e))
  {
    if e.Swipe? {
      SwipeKeepsMatchesOk(db, e.swiper, e.target, e.action);
    } else if e.Block? {
      BlockKeepsMatchesOk(db, e.blocker, e.blocked);
    } else {
      UntouchedMatches(db, e);
      IdsGrow(db, e);
      forall u | u in db.users
        ensures u in Apply(db, e).users
      {
        WhoIsUser(db, e, u);
      }
    }
  }

  lemma BlockKeepsMatchesOk(db: Db, x: UserId, y: UserId)
    requires MatchesOk(db)
    ensures MatchesOk(BlockTx(db, x, y))
  {
  }

  lemma SwipeKeepsMatchesOk(db: Db, x: UserId, y: UserId, action: Action)
    requires MatchesOk(db)
    ensures MatchesOk(SwipeTx(db, x, y, action))
  {
    if ValidPair(db, x, y) && !HasMatch(db, x, y) {
      forall m | m in db.matches
        ensures db.matches[m] != Canonical(x, y)
      {
        assert !Joins(db.matches[m], x, y);
      }
    }
  }

  lemma {:induction false} MatchesOkRun(db: Db, es: seq<Event>)
    requires MatchesOk(db)
    ensures MatchesOk(Run(db, es))
    decreases es
  {
    if es != [] {
      MatchesOkRun(db, es[..|es| - 1]);
      MatchesOkStep(Run(db, es[..|es| - 1]), es[|es| - 1]);
    }
  }

  lemma LikesNext(db: Db, e: Event, a: UserId, b: UserId)
    ensures Likes(Apply(db, e), a, b) <==>
      || (e == Swipe(a, b, Like) && ValidPair(db, a, b))
      || (Likes(db, a, b) && !(e == Swipe(a, b, Dislike) && ValidPair(db, a, b)))
  {
    if e.Swipe? {
      SwipeLikes(db, e.swiper, e.target, e.action, a, b);
    } else {
      UntouchedSwipes(db, e);
    }
  }

  lemma SwipeLikes(db: Db, x: UserId, y: UserId, action: Action, a: UserId, b: UserId)
    ensures Likes(SwipeTx(db, x, y, action), a, b) <==>
      if ValidPair(db, x, y) && (x, y) == (a, b) then action == Like else Likes(db, a, b)
  {
  }

  lemma HasMatchNext(db: Db, e: Event, a: UserId, b: UserId)
    requires MatchesOk(db) && ValidPair(db, a, b)
    ensures HasMatch(Apply(db, e), a, b) <==>
      || (e == Swipe(a, b, Like) && Likes(db, b, a))
      || (e == Swipe(b, a, Like) && Likes(db, a, b))
      || (HasMatch(db, a, b) && !IsBlockBetween(e, a, b))
  {
    if e.Block? {
      BlockMatches(db, e.blocker, e.blocked, a, b);
    } else if e.Swipe? {
      SwipeMatches(db, e.swiper, e.target, e.action, a, b);
    } else {
      UntouchedMatches(db, e);
    }
  }

  lemma BlockMatches(db: Db, x: UserId, y: UserId, a: UserId, b: UserId)
    requires ValidPair(db, a, b)
    ensures HasMatch(BlockTx(db, x, y), a, b) <==> HasMatch(db, a, b) && !IsBlockBetween(Block(x, y), a, b)
  {
    if HasMatch(db, a, b) && !IsBlockBetween(Block(x, y), a, b) {
      var m :| m in db.matches && Joins(db.matches[m], a, b);
      assert m in BlockTx(db, x, y).matches;
    }
  }

  lemma SwipeMatches(db: Db, x: UserId, y: UserId, action: Action, a: UserId, b: UserId)
    requires MatchesOk(db) && ValidPair(db, a, b)
    ensures HasMatch(SwipeTx(db, x, y, action), a, b) <==>
      || HasMatch(db, a, b)
      || (action == Like && ((x, y) == (a, b) || (x, y) == (b, a)) && Likes(db, y, x))
  {
    var after := SwipeTx(db, x, y, action);
    if HasMatch(db, a, b) {
      var m :| m in db.matches && Joins(db.matches[m], a, b);
      assert m in after.matches && after.matches[m] == db.matches[m];
    }
    if ValidPair(db, x, y) && action == Like && Likes(db, y, x) && !HasMatch(db, x, y) {
      assert db.nextId in after.matches && Joins(after.matches[db.nextId], x, y);
    }
  }

  // ----- Table and history agree -----

  lemma {:induction false} UsersByHistory(distance: (Pos, Pos) -> real, start: Time, es: seq<Event>, u: UserId)
    ensures u in History(distance, start, es).users <==> Known(es, |es|, u)
    decreases es
  {
    if es != [] {
      var front, e := es[..|es| - 1], es[|es| - 1];
      assert es == front + [e];
      UsersByHistory(distance, start, front, u);
      WhoIsUser(History(distance, start, front), e, u);
      KnownNext(front, e, u);
    }
  }

  lemma {:induction false} LikesByHistory(distance: (Pos, Pos) -> real, start: Time, es: seq<Event>,
                                          a: UserId, b: UserId)
    ensures Likes(History(distance, start, es), a, b) <==> LatestIsLike(es, |es|, a, b)
    decreases es
  {
    if es != [] {
      var front, e := es[..|es| - 1], es[|es| - 1];
      assert es == front + [e];
      LikesByHistory(distance, start, front, a, b);
      UsersByHistory(distance, start, front, a);
      UsersByHistory(distance, start, front, b);
      LikesNext(History(distance, start, front), e, a, b);
      LatestNext(front, e, a, b);
    }
  }

  // The latest swipe by a on b that reached the table, if there is one.
  function LatestSwipe(es: seq<Event>, a: UserId, b: UserId): Option<Action> {
    if es == [] then None
    else
      var front, e := es[..|es| - 1], es[|es| - 1];
      if e.Swipe? && e.swiper == a && e.target == b && a != b && Known(front, |front|, a) && Known(front, |front|, b)
      then Some(e.action)
      else LatestSwipe(front, a, b)
  }

  // After any run, the swipes table holds the latest swipe of every pair, likes and dislikes alike, and
  // no other.
  lemma {:induction false} SwipesByHistory(distance: (Pos, Pos) -> real, start: Time, es: seq<Event>,
                                           a: UserId, b: UserId)
    ensures var swipes := History(distance, start, es).swipes;
      LatestSwipe(es, a, b) == if (a, b) in swipes then Some(swipes[(a, b)]) else None
    decreases es
  {
    if es != [] {
      var front, e := es[..|es| - 1], es[|es| - 1];
      SwipesByHistory(distance, start, front, a, b);
      UsersByHistory(distance, start, front, a);
      UsersByHistory(distance, start, front, b);
      SwipeRow(History(distance, start, front), e, a, b);
    }
  }

  lemma SwipeRow(db: Db, e: Event, a: UserId, b: UserId)
    ensures var after := Apply(db, e).swipes;
      if e.Swipe? && e.swiper == a && e.target == b && a != b && a in db.users && b in db.users
      then (a, b) in after && after[(a, b)] == e.action
      else ((a, b) in after <==> (a, b) in db.swipes) && ((a, b) in after ==> after[(a, b)] == db.swipes[(a, b)])
  {
    if e.Swipe? {
      SwipeTxRow(db, e.swiper, e.target, e.action, a, b);
    } else {
      UntouchedSwipes(db, e);
    }
  }

  lemma SwipeTxRow(db: Db, x: UserId, y: UserId, action: Action, a: UserId, b: UserId)
    ensures SwipeTx(db, x, y, action).swipes ==
      if x != y && x in db.users && y in db.users then db.swipes[(x, y) := action] else db.swipes
  {
  }

  // After any run, two users are matched exactly when the history says so.
  lemma {:induction false} MatchesByHistory(distance: (Pos, Pos) -> real, start: Time, es: seq<Event>,
                                            a: UserId, b: UserId)
    ensures HasMatch(History(distance, start, es), a, b) <==> MatchedByHistory(es, a, b)
    decreases es
  {
    if es != [] {
      var front, e := es[..|es| - 1], es[|es| - 1];
      var db := History(distance, start, front);
      assert es == front + [e];
      MatchesByHistory(distance, start, front, a, b);
      MatchedNext(front, e, a, b);
      UsersByHistory(distance, start, front, a);
      UsersByHistory(distance, start, front, b);
      LikesByHistory(distance, start, front, a, b);
      LikesByHistory(distance, start, front, b, a);
      MatchesOkRun(Empty(distance, start), front);
      if ValidPair(db, a, b) {
        HasMatchNext(db, e, a, b);
      } else {
        MatchesOkStep(db, e);
        WhoIsUser(db, e, a);
        WhoIsUser(db, e, b);
      }
    }
  }

  // In every run the pairs stay canonical and unique.
  lemma MatchesAlwaysOk(distance: (Pos, Pos) -> real, start: Time, es: seq<Event>)
    ensures MatchesOk(History(distance, start, es))
  {
    MatchesOkRun(Empty(distance, start), es);
  }

  // Until a block comes between them, two matched users keep the one match they have, so every
  // later like between them is answered with the same match id.
  lemma {:induction false} MatchIdStable(db: Db, es: seq<Event>, m: Id, a: UserId, b: UserId)
    requires MatchesOk(db) && m in db.matches && Joins(db.matches[m], a, b)
    requires forall e :: e in es ==> !IsBlockBetween(e, a, b)
    ensures var after := Run(db, es);
      && m in after.matches && after.matches[m] == db.matches[m]
      && forall n :: n in after.matches && Joins(after.matches[n], a, b) ==> n == m
    decreases es
  {
    MatchesOkRun(db, es);
    if es != [] {
      var front := es[..|es| - 1];
      MatchIdStable(db, front, m, a, b);
      MatchesOkRun(db, front);
      assert es[|es| - 1] in es;
      MatchKept(Run(db, front), es[|es| - 1], m);
    }
  }

  lemma MatchKept(db: Db, e: Event, m: Id)
    requires MatchesOk(db) && m in db.matches && !IsBlockBetween(e, db.matches[m].user1, db.matches[m].user2)
    ensures m in Apply(db, e).matches && Apply(db, e).matches[m] == db.matches[m]
  {
    UntouchedMatches(db, e);
  }
}

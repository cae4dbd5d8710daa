/**
 Premium time and the monthly call quota over whole runs.
 */
module AccountRuns {
  import opened Options
  import opened Calendar
  import opened Tables

  // The counter never exceeds the quota, a reset lies in the past, and an expiry in the future
  // comes with the premium flag.
  ghost predicate AccountOk(a: Account, now: Time) {
    && a.callCount <= 5
    && a.lastReset.Some? && a.lastReset.value <= now
    && a.premiumUntil.Some?
    && (a.premiumUntil.value > now ==> a.isPremium)
  }

  ghost predicate AccountsOk(db: Db) {
    forall u :: u in db.users ==> AccountOk(db.users[u], db.clock)
  }

  lemma AccountsOkStep(db: Db, e: Event)
    requires AccountsOk(db)
    ensures AccountsOk(Apply(db, e))
  {
    match e
    case Register(user, gender) => assert Apply(db, e) == RegisterTx(db, user, gender);
    case UpdateLocation(user, pos) => assert Apply(db, e) == UpdateLocationTx(db, user, pos);
    case Call(user) => CallOk(db, user);
    case Purchase(user) => PurchaseOk(db, user);
    case _ =>
      UntouchedUsers(db, e);
      UntouchedClock(db, e);
  }

  lemma CallOk(db: Db, user: UserId)
    requires AccountsOk(db)
    ensures AccountsOk(CallTx(db, user))
  {
  }

  lemma PurchaseOk(db: Db, user: UserId)
    requires AccountsOk(db)
    ensures AccountsOk(PurchaseTx(db, user))
  {
  }

  lemma {:induction false} AccountsOkRun(db: Db, es: seq<Event>)
    requires AccountsOk(db)
    ensures AccountsOk(Run(db, es))
    decreases es
  {
    if es != [] {
      AccountsOkRun(db, es[..|es| - 1]);
      AccountsOkStep(Run(db, es[..|es| - 1]), es[|es| - 1]);
    }
  }

  lemma AccountsAlwaysOk(distance: (Pos, Pos) -> real, start: Time, es: seq<Event>)
    ensures AccountsOk(History(distance, start, es))
  {
    AccountsOkRun(Empty(distance, start), es);
  }

  // ----- Premium -----

  // The call quota looks at the expiry only and the chat gate also at the flag, and they agree.
  lemma GatesAgree(distance: (Pos, Pos) -> real, start: Time, es: seq<Event>, u: UserId)
    requires u in History(distance, start, es).users
    ensures var db := History(distance, start, es);
      QuotaPremium(db.users[u], db.clock) <==> ChatPremium(db.users[u], db.clock)
  {
    AccountsAlwaysOk(distance, start, es);
  }

  // ----- The third reading of premium -----

  // What an event of a run means for a user's premium flag.
  datatype Mark = Granted | Counted | Neither

  // The registration with its trial and every purchase give premium; a counted call clears the flag.
  function MarkOf(db: Db, e: Event, u: UserId): Mark {
    if (e.Register? && e.user == u && u !in db.users) || (e == Purchase(u) && u in db.users) then Granted
    else if e == Call(u) && CountedCall(db, u) then Counted
    else Neither
  }

  // The marks of the events of a run, in order.
  function Marks(db: Db, es: seq<Event>, u: UserId): seq<Mark> {
    if es == [] then []
    else
      var front := es[..|es| - 1];
      Marks(db, front, u) + [MarkOf(Run(db, front), es[|es| - 1], u)]
  }

  // The user was given premium and has not made a counted call since.
  predicate NoCallSinceGrant(marks: seq<Mark>) {
    exists i :: 0 <= i < |marks| && marks[i] == Granted && forall k :: i < k < |marks| ==> marks[k] != Counted
  }

  lemma SinceGrantNext(marks: seq<Mark>, m: Mark)
    ensures NoCallSinceGrant(marks + [m]) <==> m == Granted || (NoCallSinceGrant(marks) && m != Counted)
  {
    var more := marks + [m];
    if m == Granted {
      assert more[|marks|] == Granted;
    } else if NoCallSinceGrant(marks) && m != Counted {
      var i :| 0 <= i < |marks| && marks[i] == Granted && forall k :: i < k < |marks| ==> marks[k] != Counted;
      assert more[i] == Granted;
    }
    if NoCallSinceGrant(more) && m != Granted {
      SinceGrantBefore(marks, m);
    }
  }

  lemma SinceGrantBefore(marks: seq<Mark>, m: Mark)
    requires NoCallSinceGrant(marks + [m]) && m != Granted
    ensures NoCallSinceGrant(marks) && m != Counted
  {
    var more := marks + [m];
    var i :| 0 <= i < |more| && more[i] == Granted && forall k :: i < k < |more| ==> more[k] != Counted;
    assert more[|marks|] == m && marks[i] == Granted;
    assert forall k :: i < k < |marks| ==> marks[k] == more[k];
  }

  predicate Flagged(db: Db, u: UserId) {
    u in db.users && db.users[u].isPremium
  }

  lemma FlaggedNext(db: Db, e: Event, u: UserId)
    ensures Flagged(Apply(db, e), u)
       <==> MarkOf(db, e, u) == Granted || (Flagged(db, u) && MarkOf(db, e, u) != Counted)
  {
    match e
    case Call(user) => CallFlag(db, user, u);
    case Purchase(user) => PurchaseFlag(db, user, u);
    case _ =>
      if u in db.users {
        RowKept(db, e, u);
      } else {
        NewFlag(db, e, u);
      }
  }

  lemma CallFlag(db: Db, caller: UserId, u: UserId)
    ensures Flagged(CallTx(db, caller), u) <==> Flagged(db, u) && !(caller == u && CountedCall(db, u))
  {
  }

  lemma PurchaseFlag(db: Db, buyer: UserId, u: UserId)
    ensures Flagged(PurchaseTx(db, buyer), u) <==> Flagged(db, u) || (buyer == u && u in db.users)
  {
    if buyer in db.users {
      var until :| PurchaseTx(db, buyer) == GrantPremium(db, buyer, until);
      GrantFlag(db, buyer, until, u);
    }
  }

  lemma GrantFlag(db: Db, buyer: UserId, until: Time, u: UserId)
    requires buyer in db.users
    ensures Flagged(GrantPremium(db, buyer, until), u) <==> Flagged(db, u) || buyer == u
  {
  }

  lemma NewFlag(db: Db, e: Event, u: UserId)
    requires u !in db.users
    ensures Flagged(Apply(db, e), u) <==> e.Register? && e.user == u
  {
    WhoIsUser(db, e, u);
  }

  // After any run the flag says who was given premium and has not made a counted call since.
  lemma {:induction false} FlagByHistory(distance: (Pos, Pos) -> real, start: Time, es: seq<Event>, u: UserId)
    ensures Flagged(History(distance, start, es), u) <==> NoCallSinceGrant(Marks(Empty(distance, start), es, u))
    decreases es
  {
    if es != [] {
      var front, e := es[..|es| - 1], es[|es| - 1];
      FlagByHistory(distance, start, front, u);
      SinceGrantNext(Marks(Empty(distance, start), front, u), MarkOf(History(distance, start, front), e, u));
      FlaggedNext(History(distance, start, front), e, u);
    }
  }

  // The call tokens read the flag alone. That agrees with the two gates exactly while premium has not
  // lapsed, or once a counted call has followed; in between the flag still says premium.
  lemma FlagAgrees(distance: (Pos, Pos) -> real, start: Time, es: seq<Event>, u: UserId)
    requires u in History(distance, start, es).users
    ensures var db := History(distance, start, es);
      var premium := QuotaPremium(db.users[u], db.clock);
      && (premium ==> db.users[u].isPremium)
      && ((db.users[u].isPremium <==> premium)
          <==> premium || !NoCallSinceGrant(Marks(Empty(distance, start), es, u)))
  {
    AccountsAlwaysOk(distance, start, es);
    FlagByHistory(distance, start, es, u);
  }

  // ----- Expiries -----

  // What one event does to a user's expiry: only a purchase moves it, and only forward.
  lemma ExpiryStep(db: Db, e: Event, u: UserId)
    requires AccountsOk(db) && u in db.users
    ensures u in Apply(db, e).users
    ensures e != Purchase(u) ==> Apply(db, e).users[u].premiumUntil == db.users[u].premiumUntil
    ensures e == Purchase(u) ==> Apply(db, e).users[u].premiumUntil == Some(
      if db.clock < db.users[u].premiumUntil.value
      then db.users[u].premiumUntil.value + (AddMonth(db.clock) - db.clock)
      else AddMonth(db.clock))
    ensures e == Purchase(u) ==> Apply(db, e).users[u].premiumUntil.value > db.users[u].premiumUntil.value
  {
    if e.Purchase? {
      PurchaseExpiry(db, e.user, u);
    } else {
      OtherExpiries(db, e, u);
    }
  }

  lemma OtherExpiries(db: Db, e: Event, u: UserId)
    requires !e.Purchase? && u in db.users
    ensures u in Apply(db, e).users && Apply(db, e).users[u].premiumUntil == db.users[u].premiumUntil
  {
    if e.Call? {
      CallCounter(db, e.user, u);
    } else {
      RowKept(db, e, u);
    }
  }

  lemma PurchaseExpiry(db: Db, buyer: UserId, u: UserId)
    requires AccountsOk(db) && u in db.users
    ensures var after := PurchaseTx(db, buyer);
      && u in after.users
      && (buyer != u ==> after.users[u] == db.users[u])
      && (buyer == u ==>
            && after.users[u].premiumUntil.Some?
            && after.users[u].premiumUntil.value > db.users[u].premiumUntil.value)
  {
    if buyer in db.users {
      AddMonthBounds(db.clock);
      var a := db.users[buyer];
      var until := if QuotaPremium(a, db.clock) then a.premiumUntil.value + Bought(db.clock) else AddMonth(db.clock);
      assert PurchaseTx(db, buyer) == GrantPremium(db, buyer, until);
      GrantExpiry(db, buyer, until, u);
    }
  }

  lemma GrantExpiry(db: Db, buyer: UserId, until: Time, u: UserId)
    requires buyer in db.users && u in db.users
    ensures var after := GrantPremium(db, buyer, until);
      && u in after.users
      && (buyer != u ==> after.users[u] == db.users[u])
      && (buyer == u ==> after.users[u].premiumUntil == Some(until))
  {
  }

  // Over any run, an expiry never moves back.
  lemma {:induction false} ExpiryNeverBack(db: Db, es: seq<Event>, u: UserId)
    requires AccountsOk(db) && u in db.users
    ensures var after := Run(db, es);
      u in after.users && after.users[u].premiumUntil.Some? &&
      after.users[u].premiumUntil.value >= db.users[u].premiumUntil.value
    decreases es
  {
    if es != [] {
      var front := es[..|es| - 1];
      ExpiryNeverBack(db, front, u);
      AccountsOkRun(db, front);
      ExpiryStep(Run(db, front), es[|es| - 1], u);
    }
  }

  // The time a user buys in the course of a run, each purchase at its own length.
  function TimeBought(db: Db, es: seq<Event>, u: UserId): int {
    if es == [] then 0
    else
      var front := es[..|es| - 1];
      var now := Run(db, front).clock;
      TimeBought(db, front, u) + if es[|es| - 1] == Purchase(u) then AddMonth(now) - now else 0
  }

  function Purchases(es: seq<Event>, u: UserId): nat {
    if es == [] then 0
    else Purchases(es[..|es| - 1], u) + if es[|es| - 1] == Purchase(u) then 1 else 0
  }

  // Every purchase of the run finds the premium time of the user still running.
  predicate Unlapsed(db: Db, es: seq<Event>, u: UserId) {
    forall i :: 0 <= i < |es| && es[i] == Purchase(u) ==>
      var now := Run(db, es[..i]); u in now.users && QuotaPremium(now.users[u], now.clock)
  }

  // Purchases that follow each other without a lapse add up exactly, whatever happens in between.
  lemma {:induction false} PurchasesAddUp(db: Db, es: seq<Event>, u: UserId)
    requires AccountsOk(db) && u in db.users && Unlapsed(db, es, u)
    ensures var after := Run(db, es);
      u in after.users && after.users[u].premiumUntil == Some(db.users[u].premiumUntil.value + TimeBought(db, es, u))
    decreases es
  {
    if es != [] {
      var front := es[..|es| - 1];
      UnlapsedFront(db, es, u);
      PurchasesAddUp(db, front, u);
      AccountsOkRun(db, front);
      ExpiryStep(Run(db, front), es[|es| - 1], u);
    }
  }

  lemma UnlapsedFront(db: Db, es: seq<Event>, u: UserId)
    requires es != [] && Unlapsed(db, es, u)
    ensures Unlapsed(db, es[..|es| - 1], u)
    ensures es[|es| - 1] == Purchase(u) ==>
      var now := Run(db, es[..|es| - 1]); u in now.users && QuotaPremium(now.users[u], now.clock)
  {
    assert forall i :: 0 <= i < |es| - 1 ==> es[..|es| - 1][..i] == es[..i];
  }

  function Days(n: int): Time {
    n * 86_400_000_000
  }

  // Each purchase buys between 28 and 31 days.
  lemma {:induction false} TimeBoughtBounds(db: Db, es: seq<Event>, u: UserId)
    ensures Days(28 * Purchases(es, u)) <= TimeBought(db, es, u) <= Days(31 * Purchases(es, u))
    decreases es
  {
    if es != [] {
      TimeBoughtBounds(db, es[..|es| - 1], u);
      BoughtBounds(Run(db, es[..|es| - 1]).clock);
    }
  }

  lemma BoughtBounds(now: Time)
    ensures Days(28) <= Bought(now) <= Days(31)
  {
    AddMonthBounds(now);
  }

  // ----- The call quota -----

  // How many calls of a user without premium the run lets through.
  function CountedCalls(db: Db, es: seq<Event>, u: UserId): nat {
    if es == [] then 0
    else
      var front := es[..|es| - 1];
      CountedCalls(db, front, u) + if es[|es| - 1] == Call(u) && CountedCall(Run(db, front), u) then 1 else 0
  }

  lemma {:induction false} ClockForward(db: Db, es: seq<Event>)
    ensures db.clock <= Run(db, es).clock
    decreases es
  {
    if es != [] {
      ClockForward(db, es[..|es| - 1]);
      UntouchedClock(Run(db, es[..|es| - 1]), es[|es| - 1]);
    }
  }

  // What a call does to its user's row, and that no other event touches the counter of a user.
  lemma CounterStep(db: Db, e: Event, u: UserId)
    requires AccountsOk(db)
    ensures u in db.users && e == Call(u) && CountedCall(db, u) ==>
      var a := Apply(db, e).users[u];
      && a.callCount == CurrentCount(db.users[u], db.clock) + 1
      && a.lastReset == if ResetDue(db.users[u], db.clock) then Some(db.clock) else db.users[u].lastReset
    ensures u in db.users && !(e == Call(u) && CountedCall(db, u)) ==>
      u in Apply(db, e).users && SameCounter(Apply(db, e).users[u], db.users[u])
    ensures u !in db.users && u in Apply(db, e).users ==> Apply(db, e).users[u].callCount == 0
  {
    if e.Call? {
      CallCounter(db, e.user, u);
    } else if e.Purchase? {
      PurchaseCounter(db, e.user, u);
    } else if u in db.users {
      RowKept(db, e, u);
    } else {
      NewCounter(db, e, u);
    }
  }

  predicate SameCounter(a: Account, b: Account) {
    a.callCount == b.callCount && a.lastReset == b.lastReset
  }

  lemma CallCounter(db: Db, caller: UserId, u: UserId)
    ensures CallTx(db, caller).users.Keys == db.users.Keys
    ensures u in db.users && !(caller == u && CountedCall(db, u)) ==> CallTx(db, caller).users[u] == db.users[u]
    ensures u in db.users ==> CallTx(db, caller).users[u].premiumUntil == db.users[u].premiumUntil
  {
  }

  lemma PurchaseCounter(db: Db, buyer: UserId, u: UserId)
    ensures PurchaseTx(db, buyer).users.Keys == db.users.Keys
    ensures u in db.users ==> SameCounter(PurchaseTx(db, buyer).users[u], db.users[u])
  {
    if buyer in db.users {
      var until :| PurchaseTx(db, buyer) == GrantPremium(db, buyer, until);
      GrantCounter(db, buyer, until, u);
    }
  }

  lemma GrantCounter(db: Db, buyer: UserId, until: Time, u: UserId)
    requires buyer in db.users
    ensures GrantPremium(db, buyer, until).users.Keys == db.users.Keys
    ensures u in db.users ==> SameCounter(GrantPremium(db, buyer, until).users[u], db.users[u])
  {
  }

  lemma NewCounter(db: Db, e: Event, u: UserId)
    requires u !in db.users
    ensures u in Apply(db, e).users ==> Apply(db, e).users[u].callCount == 0
  {
    WhoIsUser(db, e, u);
  }

  // Within 28 days of some moment, either no reset has happened since and the counter bounds the
  // calls let through, or one has and another is not due yet.
  ghost predicate QuotaBound(since: Time, db: Db, u: UserId, calls: nat) {
    if u !in db.users then calls == 0
    else
      var a := db.users[u];
      calls <= a.callCount || (a.lastReset.Some? && a.lastReset.value >= since && calls <= MONTHLY_CALLS + a.callCount)
  }

  lemma QuotaBoundStep(since: Time, db: Db, e: Event, u: UserId, calls: nat)
    requires AccountsOk(db) && since <= db.clock <= since + 28 * DAY
    requires QuotaBound(since, db, u, calls)
    ensures QuotaBound(since, Apply(db, e), u, calls + if e == Call(u) && CountedCall(db, u) then 1 else 0)
  {
    CounterStep(db, e, u);
    if u in db.users {
      AddMonthBounds(db.users[u].lastReset.value);
    }
  }

  lemma {:induction false} QuotaBoundRun(db: Db, es: seq<Event>, u: UserId)
    requires AccountsOk(db) && Run(db, es).clock <= db.clock + 28 * DAY
    ensures QuotaBound(db.clock, Run(db, es), u, CountedCalls(db, es, u))
    decreases es
  {
    if es != [] {
      var front := es[..|es| - 1];
      ClockForward(db, front);
      UntouchedClock(Run(db, front), es[|es| - 1]);
      QuotaBoundRun(db, front, u);
      AccountsOkRun(db, front);
      QuotaBoundStep(db.clock, Run(db, front), es[|es| - 1], u, CountedCalls(db, front, u));
    }
  }

  // In no 28 days of any run does a user without premium get more than ten calls through.
  lemma TenCallsIn28Days(distance: (Pos, Pos) -> real, start: Time, before: seq<Event>, es: seq<Event>, u: UserId)
    requires var db := History(distance, start, before); Run(db, es).clock <= db.clock + 28 * DAY
    ensures CountedCalls(History(distance, start, before), es, u) <= 10
  {
    var db := History(distance, start, before);
    AccountsAlwaysOk(distance, start, before);
    QuotaBoundRun(db, es, u);
    AccountsOkRun(db, es);
  }

  // The i-th event of the run is a call that resets its user's counter.
  predicate ResetsAt(db: Db, es: seq<Event>, i: nat, u: UserId) {
    && i < |es| && es[i] == Call(u)
    && CountedCall(Run(db, es[..i]), u) && ResetDue(Run(db, es[..i]).users[u], Run(db, es[..i]).clock)
  }

  // Since a reset at some moment, the last reset is that one or one more than a month later.
  lemma {:induction false} NextResetLater(db: Db, es: seq<Event>, u: UserId, reset: Time)
    requires AccountsOk(db) && u in db.users && db.users[u].lastReset == Some(reset)
    ensures var after := Run(db, es);
      u in after.users && after.users[u].lastReset.Some? &&
      (after.users[u].lastReset.value == reset || after.users[u].lastReset.value > AddMonth(reset))
    decreases es
  {
    if es != [] {
      var front := es[..|es| - 1];
      NextResetLater(db, front, u, reset);
      AccountsOkRun(db, front);
      CounterStep(Run(db, front), es[|es| - 1], u);
      AddMonthBounds(Run(db, front).users[u].lastReset.value);
    }
  }

  // Any two resets of one counter are more than a calendar month apart.
  lemma ResetsMonthApart(distance: (Pos, Pos) -> real, start: Time, es: seq<Event>, u: UserId, i: nat, j: nat)
    requires ResetsAt(Empty(distance, start), es, i, u) && ResetsAt(Empty(distance, start), es, j, u) && i < j
    ensures Run(Empty(distance, start), es[..j]).clock > AddMonth(Run(Empty(distance, start), es[..i]).clock)
  {
    var db := Empty(distance, start);
    var first := Run(db, es[..i]);
    RunNext(db, es, i);
    AccountsOkRun(db, es[..i]);
    AccountsOkRun(db, es[..i + 1]);
    CounterStep(first, es[i], u);
    NextResetLater(Run(db, es[..i + 1]), es[i + 1..j], u, first.clock);
    RunSplit(db, es, i + 1, j);
    AddMonthBounds(Run(db, es[..j]).users[u].lastReset.value);
  }
}

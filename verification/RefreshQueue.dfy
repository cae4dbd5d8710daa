/**
 The client's refresh interceptor: one refresh at a time, and a queue of requests that are replayed
 when it is done.  Everything between two awaits runs without interruption, so each step below is
 what the interceptor does when one await returns.

 Iterating over the queue while a request is appended to it makes the next step of the iteration
 throw, and completing a completer twice throws as well; both are caught, or not, where the code
 catches.
 */
module RefreshQueue {
  import opened Options

  type Request = nat

  // What a completer is completed with.
  datatype Outcome = Response | Error

  datatype Settled = Settled(request: Request, outcome: Outcome)

  // Where the request that does the refreshing is waiting.
  datatype Phase =
    | Idle
    | Refreshing                               // for the new tokens
    | Reading                                  // for the stored access token
    | Replaying(next: nat, length: nat)        // for the replay of queue[next]; the iteration began at this length
    | Clearing                                 // for the token storage to be cleared, after an exception

  // asking: requests that failed and wait for the stored refresh token; passed: their error was
  // handed on without queueing; stuck: the storage threw, and nothing further happens to them;
  // settled: the completers completed, in order; lost: requests dropped from the queue with their
  // completer untouched; retry: the replayed request failed again with 401 and this is the new turn it
  // takes; seen and joined: every request, and every queued one in order.
  datatype State = State(
    refreshing: bool, queue: seq<Request>, phase: Phase,
    asking: set<Request>, passed: set<Request>, stuck: set<Request>, settled: seq<Settled>, lost: seq<Request>,
    retry: Option<Request>, seen: set<Request>, joined: seq<Request>)

  const START: State := State(false, [], Idle, {}, {}, {}, [], [], None, {}, [])

  datatype Step =
    | Fails(r: Request)                        // a request comes back with 401
    | RetryFails(r: Request)                   // the request being replayed does so, again
    | TokenMissing(r: Request)
    | TokenFound(r: Request)                   // joins the queue, and leads it if nobody is refreshing
    | StorageFails(r: Request)                 // reading the refresh token, or clearing the storage, throws
    | Refreshed(ok: bool)
    | TokenRead(ok: bool)
    | Replayed(outcome: Outcome)
    | Cleared(ok: bool)

  predicate Done(settled: seq<Settled>, r: Request) {
    exists i :: 0 <= i < |settled| && settled[i].request == r
  }

  // The replay waits for its own retry, when that is queued behind it.
  predicate RetryOver(s: State) {
    s.retry.None? || s.retry.value in s.passed || Done(s.settled, s.retry.value)
  }

  predicate Enabled(s: State, step: Step) {
    match step
    case Fails(r) => r !in s.seen
    case RetryFails(r) => s.phase.Replaying? && s.retry.None? && r !in s.seen
    case TokenMissing(r) => r in s.asking
    case TokenFound(r) => r in s.asking
    case StorageFails(r) => r in s.asking
    case Refreshed(_) => s.phase.Refreshing?
    case TokenRead(_) => s.phase.Reading?
    case Replayed(_) => s.phase.Replaying? && s.phase.next < |s.queue| && RetryOver(s)
    case Cleared(_) => s.phase.Clearing?
  }

  // Complete the completers of these requests with the error, up to the first that already is.
  function FailQueued(queue: seq<Request>, settled: seq<Settled>): seq<Settled> {
    if queue == [] || Done(settled, queue[0]) then settled
    else FailQueued(queue[1..], settled + [Settled(queue[0], Error)])
  }

  function Unsettled(queue: seq<Request>, settled: seq<Settled>): seq<Request> {
    if queue == [] then []
    else (if Done(settled, queue[0]) then [] else [queue[0]]) + Unsettled(queue[1..], settled)
  }

  // The finally block.
  function Finish(s: State): State {
    s.(refreshing := false, queue := [], phase := Idle, lost := s.lost + Unsettled(s.queue, s.settled))
  }

  function Next(s: State, step: Step): State
    requires Enabled(s, step)
  {
    match step
    case Fails(r) => s.(asking := s.asking + {r}, seen := s.seen + {r})
    case RetryFails(r) => s.(asking := s.asking + {r}, seen := s.seen + {r}, retry := Some(r))
    case TokenMissing(r) => s.(asking := s.asking - {r}, passed := s.passed + {r})
    case TokenFound(r) =>
      var queued := s.(asking := s.asking - {r}, queue := s.queue + [r], joined := s.joined + [r]);
      if s.refreshing then queued else queued.(refreshing := true, phase := Refreshing)
    case StorageFails(r) => s.(asking := s.asking - {r}, stuck := s.stuck + {r})
    case Refreshed(ok) => s.(phase := if ok then Reading else Clearing)
    case TokenRead(ok) => s.(phase := if ok then Replaying(0, |s.queue|) else Clearing)
    case Replayed(outcome) =>
      var i, n := s.phase.next, s.phase.length;
      var done := s.(settled := s.settled + [Settled(s.queue[i], outcome)], retry := None);
      if |s.queue| != n then done.(phase := Clearing)
      else if i + 1 < n then done.(phase := Replaying(i + 1, n))
      else Finish(done)
    case Cleared(ok) => Finish(if ok then s.(settled := FailQueued(s.queue, s.settled)) else s)
  }

  class RefreshInterceptor {
    var isRefreshing: bool
    var queue: seq<Request>
    var phase: Phase
    var asking: set<Request>
    var passed: set<Request>
    var stuck: set<Request>
    var settled: seq<Settled>
    var lost: seq<Request>
    var retry: Option<Request>
    ghost var seen: set<Request>
    ghost var joined: seq<Request>

    ghost function View(): State
      reads this
    {
      State(isRefreshing, queue, phase, asking, passed, stuck, settled, lost, retry, seen, joined)
    }

    constructor ()
      ensures View() == START
    {
      isRefreshing, queue, phase := false, [], Idle;
      asking, passed, stuck, settled, lost, retry := {}, {}, {}, [], [], None;
      seen, joined := {}, [];
    }

    // The stored refresh token has been read, and there is one.
    method OnToken(r: Request)
      requires Enabled(View(), TokenFound(r))
      modifies this
      ensures View() == Next(old(View()), TokenFound(r))
    {
      asking := asking - {r};
      queue := queue + [r];
      joined := joined + [r];
      if !isRefreshing {
        isRefreshing := true;
        phase := Refreshing;
      }
    }

    // The replay of one queued request has come back; the iteration goes on, or throws.
    method OnReplayed(outcome: Outcome)
      requires Enabled(View(), Replayed(outcome))
      modifies this
      ensures View() == Next(old(View()), Replayed(outcome))
      ensures settled == old(settled) + [Settled(old(queue)[old(phase).next], outcome)]
    {
      settled := settled + [Settled(queue[phase.next], outcome)];
      retry := None;
      if |queue| != phase.length {
        phase := Clearing;
      } else if phase.next + 1 < phase.length {
        phase := Replaying(phase.next + 1, phase.length);
      } else {
        Reset();
      }
    }

    // The catch block, once the storage is cleared or has failed to be.
    method OnCleared(ok: bool)
      requires Enabled(View(), Cleared(ok))
      modifies this
      ensures View() == Next(old(View()), Cleared(ok))
    {
      if ok {
        var i := 0;
        while i < |queue| && !Done(settled, queue[i])
          invariant 0 <= i <= |queue|
          invariant FailQueued(queue[i..], settled) == FailQueued(queue, old(settled))
          invariant View() == old(View()).(settled := settled)
        {
          settled := settled + [Settled(queue[i], Error)];
          i := i + 1;
        }
      }
      Reset();
    }

    method Reset()
      modifies this`queue, this`isRefreshing, this`phase, this`lost
      ensures View() == Finish(old(View()))
    {
      lost := lost + Unsettled(queue, settled);
      queue := [];
      isRefreshing := false;
      phase := Idle;
    }
  }

  // ----- Runs -----

  predicate Runs(s: State, steps: seq<Step>)
    decreases steps
  {
    steps == [] || (Enabled(s, steps[0]) && Runs(Next(s, steps[0]), steps[1..]))
  }

  function After(s: State, steps: seq<Step>): State
    requires Runs(s, steps)
    decreases steps
  {
    if steps == [] then s else After(Next(s, steps[0]), steps[1..])
  }

  // The requests of the queue that are settled: while the queue is replayed, those before the next.
  predicate Front(s: State, n: nat) {
    && n <= |s.queue|
    && forall i :: 0 <= i < |s.queue| ==> (Done(s.settled, s.queue[i]) <==> i < n)
  }

  // In every state: the flag is set exactly while one request refreshes, which is when the queue is
  // not empty; and every request is in one place only.
  ghost predicate Inv(s: State) {
    && (s.refreshing <==> !s.phase.Idle?) && (s.queue != [] <==> s.refreshing)
    && (s.phase.Refreshing? || s.phase.Reading? ==> Front(s, 0))
    && (s.phase.Replaying? ==> s.phase.next < s.phase.length <= |s.queue| && Front(s, s.phase.next))
    && (s.phase.Clearing? ==> Front(s, 0) || Done(s.settled, s.queue[0]))
    && Places(s)
  }

  // asking, passed, stuck, the queue, what is settled or lost: all disjoint, and nothing twice.
  ghost predicate Places(s: State) {
    && (forall r :: r in s.asking || r in s.passed || r in s.stuck ==> r in s.seen)
    && (forall r :: r in s.queue || r in s.lost || Done(s.settled, r) ==> r in s.seen)
    && (forall r :: r in s.asking ==>
          r !in s.passed && r !in s.stuck && r !in s.queue && r !in s.lost && !Done(s.settled, r))
    && (forall r :: r in s.stuck ==> r !in s.passed && r !in s.queue && r !in s.lost && !Done(s.settled, r))
    && (forall r :: r in s.passed ==> r !in s.queue && r !in s.lost && !Done(s.settled, r))
    && (forall r :: r in s.lost ==> r !in s.queue && !Done(s.settled, r))
    && (forall i, j :: 0 <= i < j < |s.queue| ==> s.queue[i] != s.queue[j])
    && (forall i, j :: 0 <= i < j < |s.settled| ==> s.settled[i].request != s.settled[j].request)
  }

  // ----- What the catch block settles and the finally block drops -----

  lemma DoneMore(settled: seq<Settled>, x: Settled, r: Request)
    ensures Done(settled + [x], r) <==> Done(settled, r) || x.request == r
  {
    var more := settled + [x];
    if Done(settled, r) {
      var i :| 0 <= i < |settled| && settled[i].request == r;
      assert more[i].request == r;
    }
    if x.request == r {
      assert more[|settled|].request == r;
    }
  }

  function Errors(queue: seq<Request>): seq<Settled> {
    seq(|queue|, i requires 0 <= i < |queue| => Settled(queue[i], Error))
  }

  // On a queue nothing of which is settled, the catch block settles all of it, in order.
  lemma {:induction false} FailsAll(queue: seq<Request>, settled: seq<Settled>)
    requires forall i :: 0 <= i < |queue| ==> !Done(settled, queue[i])
    requires forall i, j :: 0 <= i < j < |queue| ==> queue[i] != queue[j]
    ensures FailQueued(queue, settled) == settled + Errors(queue)
    decreases queue
  {
    if queue != [] {
      var more, rest := settled + [Settled(queue[0], Error)], queue[1..];
      forall i | 0 <= i < |rest|
        ensures !Done(more, rest[i])
      {
        DoneMore(settled, Settled(queue[0], Error), rest[i]);
      }
      FailsAll(rest, more);
      assert more + Errors(rest) == settled + Errors(queue);
    }
  }

  lemma DoneErrors(settled: seq<Settled>, queue: seq<Request>, r: Request)
    ensures Done(settled + Errors(queue), r) <==> Done(settled, r) || r in queue
  {
    var all := settled + Errors(queue);
    if Done(settled, r) {
      var i :| 0 <= i < |settled| && settled[i].request == r;
      assert all[i].request == r;
    }
    if r in queue {
      var i :| 0 <= i < |queue| && queue[i] == r;
      assert all[|settled| + i].request == r;
    }
  }

  lemma {:induction false} UnsettledIs(queue: seq<Request>, settled: seq<Settled>)
    ensures forall r :: r in Unsettled(queue, settled) <==> r in queue && !Done(settled, r)
    decreases queue
  {
    if queue != [] {
      UnsettledIs(queue[1..], settled);
      assert queue == [queue[0]] + queue[1..];
    }
  }

  // ----- One step keeps the invariant -----

  lemma EnterKeeps(s: State, step: Step)
    requires Inv(s) && Enabled(s, step) && (step.Fails? || step.RetryFails? || step.TokenMissing? || step.StorageFails?)
    ensures Inv(Next(s, step))
  {
  }

  lemma JoinKeeps(s: State, r: Request)
    requires Inv(s) && Enabled(s, TokenFound(r))
    ensures Inv(Next(s, TokenFound(r)))
  {
    var s' := Next(s, TokenFound(r));
    assert s'.queue[|s.queue|] == r;
    assert forall i :: 0 <= i < |s.queue| ==> s'.queue[i] == s.queue[i];
  }

  lemma AnswerKeeps(s: State, step: Step)
    requires Inv(s) && Enabled(s, step) && (step.Refreshed? || step.TokenRead?)
    ensures Inv(Next(s, step))
  {
  }

  // Settling one more request moves the front of the queue on by one.
  lemma ReplayedFront(s: State, outcome: Outcome)
    requires Inv(s) && Enabled(s, Replayed(outcome))
    ensures var i := s.phase.next;
      var done := s.(settled := s.settled + [Settled(s.queue[i], outcome)], retry := None);
      Front(done, i + 1) && Places(done)
  {
    var i := s.phase.next;
    var x := Settled(s.queue[i], outcome);
    forall r
      ensures Done(s.settled + [x], r) <==> Done(s.settled, r) || r == s.queue[i]
    {
      DoneMore(s.settled, x, r);
    }
    assert !Done(s.settled, s.queue[i]);
  }

  lemma FinishKeeps(s: State)
    requires Places(s)
    ensures Inv(Finish(s))
  {
    UnsettledIs(s.queue, s.settled);
  }

  lemma ReplayedKeeps(s: State, outcome: Outcome)
    requires Inv(s) && Enabled(s, Replayed(outcome))
    ensures Inv(Next(s, Replayed(outcome)))
  {
    ReplayedFront(s, outcome);
    var i := s.phase.next;
    var done := s.(settled := s.settled + [Settled(s.queue[i], outcome)], retry := None);
    FinishKeeps(done);
    assert Done(done.settled, s.queue[0]);
  }

  lemma ClearedKeeps(s: State, ok: bool)
    requires Inv(s) && Enabled(s, Cleared(ok))
    ensures Inv(Next(s, Cleared(ok)))
  {
    if ok && Front(s, 0) {
      FailsAll(s.queue, s.settled);
      var done := s.(settled := s.settled + Errors(s.queue));
      forall r
        ensures Done(done.settled, r) <==> Done(s.settled, r) || r in s.queue
      {
        DoneErrors(s.settled, s.queue, r);
      }
      SettledOnce(s);
      FinishKeeps(done.(queue := []));
      FinishSettled(done);
    } else {
      FinishKeeps(s);
    }
  }

  // Completing the whole queue completes nobody twice.
  lemma SettledOnce(s: State)
    requires Inv(s) && Front(s, 0)
    ensures var settled := s.settled + Errors(s.queue);
      forall i, j :: 0 <= i < j < |settled| ==> settled[i].request != settled[j].request
  {
    var settled, n := s.settled + Errors(s.queue), |s.settled|;
    forall i, j | 0 <= i < j < |settled|
      ensures settled[i].request != settled[j].request
    {
      if i < n <= j {
        assert !Done(s.settled, s.queue[j - n]);
      }
    }
  }

  // Nothing is dropped when everything is settled.
  lemma FinishSettled(s: State)
    requires forall r :: r in s.queue ==> Done(s.settled, r)
    ensures Finish(s) == Finish(s.(queue := []))
  {
    NoneUnsettled(s.queue, s.settled);
  }

  lemma {:induction false} NoneUnsettled(queue: seq<Request>, settled: seq<Settled>)
    requires forall r :: r in queue ==> Done(settled, r)
    ensures Unsettled(queue, settled) == []
    decreases queue
  {
    if queue != [] {
      assert queue[0] in queue;
      assert forall r :: r in queue[1..] ==> r in queue;
      NoneUnsettled(queue[1..], settled);
    }
  }

  lemma StepKeeps(s: State, step: Step)
    requires Inv(s) && Enabled(s, step)
    ensures Inv(Next(s, step))
  {
    match step
    case TokenFound(r) => JoinKeeps(s, r);
    case Refreshed(_) => AnswerKeeps(s, step);
    case TokenRead(_) => AnswerKeeps(s, step);
    case Replayed(outcome) => ReplayedKeeps(s, outcome);
    case Cleared(ok) => ClearedKeeps(s, ok);
    case _ => EnterKeeps(s, step);
  }

  lemma {:induction false} RunKeeps(s: State, steps: seq<Step>)
    requires Inv(s) && Runs(s, steps)
    ensures Inv(After(s, steps))
    decreases steps
  {
    if steps != [] {
      StepKeeps(s, steps[0]);
      RunKeeps(Next(s, steps[0]), steps[1..]);
    }
  }

  // At every await of every run: a request refreshes exactly while the flag is set, which is exactly
  // while the queue is not empty, and no request is settled twice or in two places at once.
  lemma SingleFlight(steps: seq<Step>)
    requires Runs(START, steps)
    ensures var s := After(START, steps);
      && (s.refreshing <==> !s.phase.Idle?) && (s.queue != [] <==> s.refreshing)
      && Places(s)
  {
    RunKeeps(START, steps);
  }

  // ----- When nothing goes wrong -----

  function Requests(settled: seq<Settled>): seq<Request> {
    seq(|settled|, i requires 0 <= i < |settled| => settled[i].request)
  }

  // The queued requests that still wait for their turn.
  function Waiting(s: State): seq<Request>
    requires s.phase.Replaying? ==> s.phase.next <= |s.queue|
  {
    if s.phase.Replaying? then s.queue[s.phase.next..] else s.queue
  }

  // Nobody joins while the queue is replayed, and clearing the storage does not fail.
  predicate Orderly(s: State, step: Step) {
    !(step.TokenFound? && s.phase.Replaying?) && step != Cleared(false)
  }

  ghost predicate AllOrderly(s: State, steps: seq<Step>)
    requires Runs(s, steps)
    decreases steps
  {
    steps == [] || (Orderly(s, steps[0]) && AllOrderly(Next(s, steps[0]), steps[1..]))
  }

  ghost predicate InOrder(s: State) {
    && Inv(s) && s.lost == []
    && s.joined == Requests(s.settled) + Waiting(s)
    && (s.phase.Replaying? ==> s.phase.length == |s.queue|)
    && (s.phase.Clearing? ==> Front(s, 0))
  }

  lemma ReplayedInOrder(s: State, outcome: Outcome)
    requires InOrder(s) && Enabled(s, Replayed(outcome))
    ensures InOrder(Next(s, Replayed(outcome)))
  {
    ReplayedKeeps(s, outcome);
    ReplayedWaiting(s, Settled(s.queue[s.phase.next], outcome));
    if s.phase.next + 1 == |s.queue| {
      ReplayedAll(s, outcome);
    }
  }

  lemma ReplayedWaiting(s: State, x: Settled)
    requires s.phase.Replaying? && s.phase.next < |s.queue| && x.request == s.queue[s.phase.next]
    ensures Requests(s.settled + [x]) + s.queue[s.phase.next + 1..] == Requests(s.settled) + s.queue[s.phase.next..]
  {
  }

  lemma ReplayedAll(s: State, outcome: Outcome)
    requires Inv(s) && Enabled(s, Replayed(outcome)) && s.phase.next + 1 == |s.queue|
    ensures Unsettled(s.queue, s.settled + [Settled(s.queue[s.phase.next], outcome)]) == []
  {
    ReplayedFront(s, outcome);
    NoneUnsettled(s.queue, s.settled + [Settled(s.queue[s.phase.next], outcome)]);
  }

  lemma ClearedInOrder(s: State)
    requires InOrder(s) && Enabled(s, Cleared(true))
    ensures InOrder(Next(s, Cleared(true)))
  {
    ClearedKeeps(s, true);
    ClearedAll(s);
  }

  lemma ClearedAll(s: State)
    requires Inv(s) && Front(s, 0)
    ensures var settled := FailQueued(s.queue, s.settled);
      Unsettled(s.queue, settled) == [] && Requests(settled) == Requests(s.settled) + s.queue
  {
    FailsAll(s.queue, s.settled);
    forall r | r in s.queue
      ensures Done(s.settled + Errors(s.queue), r)
    {
      DoneErrors(s.settled, s.queue, r);
    }
    NoneUnsettled(s.queue, s.settled + Errors(s.queue));
  }

  lemma InOrderStep(s: State, step: Step)
    requires InOrder(s) && Enabled(s, step) && Orderly(s, step)
    ensures InOrder(Next(s, step))
  {
    StepKeeps(s, step);
    match step
    case Replayed(outcome) => ReplayedInOrder(s, outcome);
    case Cleared(_) => ClearedInOrder(s);
    case TokenRead(_) => assert s.queue[0..] == s.queue;
    case _ =>
  }

  lemma {:induction false} InOrderRun(s: State, steps: seq<Step>)
    requires InOrder(s) && Runs(s, steps) && AllOrderly(s, steps)
    ensures InOrder(After(s, steps))
    decreases steps
  {
    if steps != [] {
      InOrderStep(s, steps[0]);
      InOrderRun(Next(s, steps[0]), steps[1..]);
    }
  }

  // As long as nobody joins during a replay and the storage can be cleared: requests are settled in
  // the order in which they joined, each once, none is lost, and whenever nobody refreshes every
  // request that ever joined has been settled.
  lemma SettledInOrder(steps: seq<Step>)
    requires Runs(START, steps) && AllOrderly(START, steps)
    ensures var s := After(START, steps);
      && Requests(s.settled) <= s.joined && s.lost == []
      && (forall i, j :: 0 <= i < j < |s.settled| ==> s.settled[i].request != s.settled[j].request)
      && (s.phase.Idle? ==> s.joined == Requests(s.settled))
      && (s.phase.Idle? ==> !s.refreshing && s.queue == [])
  {
    InOrderRun(START, steps);
  }

  // ----- When a request joins during the replay -----

  // The request is in the part of the queue that the iteration will not reach, because the queue has
  // grown under it.
  predicate Unreached(s: State, r: Request) {
    && r in s.queue && !Done(s.settled, r)
    && ((s.phase.Replaying? && s.phase.next < s.phase.length < |s.queue| && r in s.queue[s.phase.next + 1..])
        || (s.phase.Clearing? && Done(s.settled, s.queue[0])))
  }

  ghost predicate Doomed(s: State, r: Request) {
    Inv(s) && (r in s.lost || Unreached(s, r))
  }

  // The next step of the iteration throws, and the catch block stops at once.
  lemma ReplayedStaysUnreached(s: State, outcome: Outcome, r: Request)
    requires Inv(s) && Unreached(s, r) && Enabled(s, Replayed(outcome))
    ensures Unreached(Next(s, Replayed(outcome)), r)
  {
    var i := s.phase.next;
    DoneMore(s.settled, Settled(s.queue[i], outcome), r);
    DoneMore(s.settled, Settled(s.queue[i], outcome), s.queue[0]);
    var k :| i + 1 <= k < |s.queue| && s.queue[k] == r;
    assert s.queue[i] != s.queue[k];
  }

  lemma JoinedStaysUnreached(s: State, q: Request, r: Request)
    requires Inv(s) && Unreached(s, r) && Enabled(s, TokenFound(q))
    ensures Unreached(Next(s, TokenFound(q)), r)
  {
    if s.phase.Replaying? {
      assert (s.queue + [q])[s.phase.next + 1..] == s.queue[s.phase.next + 1..] + [q];
    }
  }

  lemma UnreachedIsLost(s: State, ok: bool, r: Request)
    requires Inv(s) && Unreached(s, r) && Enabled(s, Cleared(ok))
    ensures r in Next(s, Cleared(ok)).lost
  {
    UnsettledIs(s.queue, s.settled);
  }

  lemma LostStays(s: State, step: Step, r: Request)
    requires r in s.lost && Enabled(s, step)
    ensures r in Next(s, step).lost
  {
  }

  lemma DoomedStep(s: State, step: Step, r: Request)
    requires Doomed(s, r) && Enabled(s, step)
    ensures Doomed(Next(s, step), r)
  {
    StepKeeps(s, step);
    if r in s.lost {
      LostStays(s, step, r);
    } else {
      match step
      case Replayed(outcome) => ReplayedStaysUnreached(s, outcome, r);
      case Cleared(ok) => UnreachedIsLost(s, ok, r);
      case TokenFound(q) => JoinedStaysUnreached(s, q, r);
      case _ =>
    }
  }

  lemma {:induction false} DoomedForever(s: State, steps: seq<Step>, r: Request)
    requires Doomed(s, r) && Runs(s, steps)
    ensures Doomed(After(s, steps), r)
    decreases steps
  {
    if steps != [] {
      DoomedStep(s, steps[0], r);
      DoomedForever(Next(s, steps[0]), steps[1..], r);
    }
  }

  // A join during the replay, or a storage that cannot be cleared, each costs some request its answer.
  lemma DisorderDooms(s: State, step: Step) returns (r: Request)
    requires InOrder(s) && Enabled(s, step) && !Orderly(s, step)
    ensures Doomed(Next(s, step), r)
  {
    StepKeeps(s, step);
    if step.TokenFound? {
      r := step.r;
      assert (s.queue + [r])[s.phase.next + 1..] == s.queue[s.phase.next + 1..] + [r];
    } else {
      r := s.queue[0];
      UnsettledIs(s.queue, s.settled);
    }
  }

  lemma {:induction false} DisorderLoses(s: State, steps: seq<Step>) returns (r: Request)
    requires InOrder(s) && Runs(s, steps) && !AllOrderly(s, steps)
    ensures Doomed(After(s, steps), r)
    decreases steps
  {
    if Orderly(s, steps[0]) {
      InOrderStep(s, steps[0]);
      r := DisorderLoses(Next(s, steps[0]), steps[1..]);
    } else {
      r := DisorderDooms(s, steps[0]);
      DoomedForever(Next(s, steps[0]), steps[1..], r);
    }
  }

  // SettledInOrder asks for no more than it has to: when a run comes back to idle, no request has been
  // lost exactly when nobody joined during a replay and the storage was cleared whenever it had to be.
  lemma NoneLostIffOrderly(steps: seq<Step>)
    requires Runs(START, steps) && After(START, steps).phase.Idle?
    ensures After(START, steps).lost == [] <==> AllOrderly(START, steps)
  {
    if AllOrderly(START, steps) {
      SettledInOrder(steps);
    } else {
      var r := DisorderLoses(START, steps);
      assert r in After(START, steps).lost;
    }
  }

  // Behind the one being replayed nothing is settled yet.
  lemma BehindIsUnsettled(s: State, q: Request)
    requires Inv(s) && s.phase.Replaying? && q in s.queue[s.phase.next + 1..]
    ensures q in s.queue && !Done(s.settled, q)
  {
    var tail, n := s.queue[s.phase.next + 1..], s.phase.next + 1;
    var k :| 0 <= k < |tail| && tail[k] == q;
    assert s.queue[n + k] == q;
  }

  lemma LateIsDoomed(s: State, r: Request, q: Request)
    requires Inv(s) && s.phase.Replaying? && Enabled(s, TokenFound(r)) && q in s.queue[s.phase.next + 1..] + [r]
    ensures Doomed(Next(s, TokenFound(r)), q)
  {
    var late := Next(s, TokenFound(r));
    JoinKeeps(s, r);
    assert late.queue[s.phase.next + 1..] == s.queue[s.phase.next + 1..] + [r];
    BehindIsUnsettled(late, q);
  }

  lemma DoomedEnds(s: State, q: Request)
    requires Doomed(s, q)
    ensures !Done(s.settled, q) && (s.phase.Idle? ==> q in s.lost)
  {
  }

  // A request that joins while the queue is being replayed is never settled, in any continuation of
  // any run, and neither is any request behind the one being replayed; they are dropped by the time
  // the interceptor is idle again.
  lemma LateJoinLosesRest(before: seq<Step>, r: Request, steps: seq<Step>, q: Request)
    requires Runs(START, before) && After(START, before).phase.Replaying?
    requires Enabled(After(START, before), TokenFound(r))
    requires Runs(Next(After(START, before), TokenFound(r)), steps)
    requires var s := After(START, before); s.phase.next < |s.queue| && q in s.queue[s.phase.next + 1..] + [r]
    ensures var end := After(Next(After(START, before), TokenFound(r)), steps);
      && !Done(end.settled, q)
      && (end.phase.Idle? ==> q in end.lost)
  {
    RunKeeps(START, before);
    LateIsDoomed(After(START, before), r, q);
    DoomedForever(Next(After(START, before), TokenFound(r)), steps, q);
    DoomedEnds(After(Next(After(START, before), TokenFound(r)), steps), q);
  }

  // ----- When the replayed request is refused again -----

  // The replay waits for a retry that is itself waiting in the queue, or has been given up by its own
  // turn without an answer, because the storage threw.
  predicate Hung(s: State, r: Request) {
    && s.phase.Replaying? && s.retry == Some(r) && (r in s.queue || r in s.stuck)
    && r !in s.passed && !Done(s.settled, r)
  }

  // From then on nothing more is settled and the flag stays set, whatever happens.
  lemma {:induction false} RetryHangs(s: State, steps: seq<Step>, r: Request)
    requires Inv(s) && Hung(s, r) && Runs(s, steps)
    ensures var end := After(s, steps); Hung(end, r) && end.refreshing && end.settled == s.settled
    decreases steps
  {
    if steps != [] {
      StepKeeps(s, steps[0]);
      assert Hung(Next(s, steps[0]), r) && Next(s, steps[0]).settled == s.settled;
      RetryHangs(Next(s, steps[0]), steps[1..], r);
    }
  }

  // It takes no more than a replay that comes back with 401, whether its turn then finds a token or
  // the storage throws.
  lemma RetryJoinHangs(before: seq<Step>, r: Request)
    requires Runs(START, before)
    requires var s := After(START, before); s.phase.Replaying? && s.retry == Some(r) && r in s.asking
    ensures Hung(Next(After(START, before), TokenFound(r)), r)
    ensures Hung(Next(After(START, before), StorageFails(r)), r)
  {
    RunKeeps(START, before);
  }

  // A retry belongs to a replay, and it has been somewhere ever since it failed.
  predicate RetryKnown(s: State) {
    s.retry.Some? ==>
      && s.phase.Replaying?
      && var r := s.retry.value;
         r in s.asking || r in s.passed || r in s.stuck || r in s.queue || Done(s.settled, r)
  }

  lemma RetryKnownStep(s: State, step: Step)
    requires RetryKnown(s) && Enabled(s, step) && (s.refreshing <==> !s.phase.Idle?)
    ensures RetryKnown(Next(s, step))
  {
  }

  lemma {:induction false} RetryKnownRun(s: State, steps: seq<Step>)
    requires Inv(s) && RetryKnown(s) && Runs(s, steps)
    ensures RetryKnown(After(s, steps))
    decreases steps
  {
    if steps != [] {
      StepKeeps(s, steps[0]);
      RetryKnownStep(s, steps[0]);
      RetryKnownRun(Next(s, steps[0]), steps[1..]);
    }
  }

  // One more step in front of a run that comes back.
  lemma Prepend(s: State, step: Step, rest: seq<Step>) returns (steps: seq<Step>)
    requires Enabled(s, step) && Runs(Next(s, step), rest)
    ensures Runs(s, steps) && After(s, steps) == After(Next(s, step), rest)
  {
    steps := [step] + rest;
    assert steps[1..] == rest;
  }

  lemma ClearingComesBack(s: State) returns (steps: seq<Step>)
    requires s.phase.Clearing?
    ensures Runs(s, steps) && After(s, steps).phase.Idle?
  {
    steps := Prepend(s, Cleared(true), []);
  }

  lemma {:induction false} ReplayComesBack(s: State) returns (steps: seq<Step>)
    requires Inv(s) && RetryKnown(s) && s.phase.Replaying? && forall r :: !Hung(s, r)
    ensures Runs(s, steps) && After(s, steps).phase.Idle?
    decreases s.phase.length - s.phase.next, if RetryOver(s) then 0 else 1
  {
    if RetryOver(s) {
      var next := Next(s, Replayed(Response));
      ReplayedKeeps(s, Response);
      var rest := [];
      if next.phase.Clearing? {
        rest := ClearingComesBack(next);
      } else if next.phase.Replaying? {
        rest := ReplayComesBack(next);
      }
      steps := Prepend(s, Replayed(Response), rest);
    } else {
      var r := s.retry.value;
      assert !Hung(s, r);
      EnterKeeps(s, TokenMissing(r));
      var rest := ReplayComesBack(Next(s, TokenMissing(r)));
      steps := Prepend(s, TokenMissing(r), rest);
    }
  }

  lemma ComesBack(s: State) returns (steps: seq<Step>)
    requires Inv(s) && RetryKnown(s) && forall r :: !Hung(s, r)
    ensures Runs(s, steps) && After(s, steps).phase.Idle?
  {
    match s.phase
    case Idle => steps := [];
    case Refreshing =>
      var rest := ClearingComesBack(Next(s, Refreshed(false)));
      steps := Prepend(s, Refreshed(false), rest);
    case Reading =>
      var rest := ClearingComesBack(Next(s, TokenRead(false)));
      steps := Prepend(s, TokenRead(false), rest);
    case Replaying(_, _) => steps := ReplayComesBack(s);
    case Clearing => steps := ClearingComesBack(s);
  }

  // A continuation after which nobody refreshes any more.
  predicate LeadsToIdle(s: State, steps: seq<Step>) {
    Runs(s, steps) && After(s, steps).phase.Idle?
  }

  ghost predicate CanComeBack(s: State) {
    exists more :: LeadsToIdle(s, more)
  }

  ghost predicate WaitsForever(s: State) {
    exists r :: Hung(s, r)
  }

  lemma CanComeBackIff(s: State)
    requires Inv(s) && RetryKnown(s)
    ensures CanComeBack(s) <==> !WaitsForever(s)
  {
    if r :| Hung(s, r) {
      forall more
        ensures !LeadsToIdle(s, more)
      {
        if Runs(s, more) {
          RetryHangs(s, more, r);
        }
      }
    } else {
      var more := ComesBack(s);
      assert LeadsToIdle(s, more);
    }
  }

  // That is the only way never to finish: after any run, the interceptor can come back to idle exactly
  // when the replay is not waiting for a retry in its own queue, or for one that was given up.
  lemma ComesBackIffNotHung(before: seq<Step>)
    requires Runs(START, before)
    ensures CanComeBack(After(START, before)) <==> !WaitsForever(After(START, before))
  {
    RunKeeps(START, before);
    RetryKnownRun(START, before);
    CanComeBackIff(After(START, before));
  }

  // ----- How long it can take -----

  // The awaits of the refresh itself, as opposed to those of the requests that fail meanwhile.
  predicate IsOwn(step: Step) {
    step.Refreshed? || step.TokenRead? || step.Replayed? || step.Cleared?
  }

  // How many of them are left at most, if nobody joins any more.
  function Work(s: State): int {
    match s.phase
    case Idle => 0
    case Clearing => 1
    case Replaying(next, length) => length - next + 1
    case Reading => |s.queue| + 2
    case Refreshing => |s.queue| + 3
  }

  function OwnSteps(steps: seq<Step>): nat
    decreases steps
  {
    if steps == [] then 0 else OwnSteps(steps[1..]) + if IsOwn(steps[0]) then 1 else 0
  }

  // The requests that join the queue in the run, and those of them that start a refresh.
  function Joins(steps: seq<Step>): nat
    decreases steps
  {
    if steps == [] then 0 else Joins(steps[1..]) + if steps[0].TokenFound? then 1 else 0
  }

  function Starts(s: State, steps: seq<Step>): nat
    requires Runs(s, steps)
    decreases steps
  {
    if steps == [] then 0
    else Starts(Next(s, steps[0]), steps[1..]) + if steps[0].TokenFound? && !s.refreshing then 1 else 0
  }

  lemma WorkStep(s: State, step: Step)
    requires Inv(s) && Enabled(s, step)
    ensures Work(Next(s, step)) + (if IsOwn(step) then 1 else 0)
         <= Work(s) + if !step.TokenFound? then 0 else if s.refreshing then 1 else 4
  {
  }

  lemma {:induction false} WorkRun(s: State, steps: seq<Step>)
    requires Inv(s) && Runs(s, steps)
    ensures OwnSteps(steps) + Work(After(s, steps)) <= Work(s) + Joins(steps) + 3 * Starts(s, steps)
    decreases steps
  {
    if steps != [] {
      StepKeeps(s, steps[0]);
      WorkStep(s, steps[0]);
      WorkRun(Next(s, steps[0]), steps[1..]);
    }
  }

  // In every run a refresh has no more awaits of its own than one for each request that joined, three
  // for each time it started, and what was left to do at the beginning.
  lemma RefreshIsBounded(before: seq<Step>, steps: seq<Step>)
    requires Runs(START, before) && Runs(After(START, before), steps)
    ensures var s := After(START, before);
      OwnSteps(steps) + Work(After(s, steps)) <= Work(s) + Joins(steps) + 3 * Starts(s, steps)
    ensures Work(After(After(START, before), steps)) >= 0
  {
    RunKeeps(START, before);
    RunKeeps(After(START, before), steps);
    WorkRun(After(START, before), steps);
  }

  ghost predicate OwnCanMove(s: State) {
    exists step :: IsOwn(step) && Enabled(s, step)
  }

  // The replayed request failed again and its new turn has not read the stored token yet.
  predicate RetryAsks(s: State) {
    s.retry.Some? && s.retry.value in s.asking
  }

  lemma MovesIff(s: State)
    requires Inv(s) && RetryKnown(s)
    ensures OwnCanMove(s) || RetryAsks(s) <==> !s.phase.Idle? && !WaitsForever(s)
  {
    if s.phase.Replaying? {
      if RetryOver(s) {
        assert IsOwn(Replayed(Response)) && Enabled(s, Replayed(Response));
        assert !WaitsForever(s);
      } else {
        assert RetryAsks(s) <==> !Hung(s, s.retry.value);
        assert forall step :: IsOwn(step) ==> !Enabled(s, step);
      }
    } else {
      OthersMove(s);
    }
  }

  lemma OthersMove(s: State)
    requires !s.phase.Replaying?
    ensures OwnCanMove(s) <==> !s.phase.Idle?
  {
    var step := if s.phase.Refreshing? then Refreshed(true)
                else if s.phase.Reading? then TokenRead(true) else Cleared(true);
    assert IsOwn(step) && (!s.phase.Idle? ==> Enabled(s, step));
  }

  // And it does not stop before: after any run, one of those awaits can return, or the retry is about
  // to read the stored token, exactly when a refresh is under way that is not hung.
  lemma MovesUnlessHung(before: seq<Step>)
    requires Runs(START, before)
    ensures var s := After(START, before); OwnCanMove(s) || RetryAsks(s) <==> s.refreshing && !WaitsForever(s)
  {
    RunKeeps(START, before);
    RetryKnownRun(START, before);
    MovesIff(After(START, before));
  }

  // ----- Runs in which these things happen -----

  lemma {:induction false} Append(s: State, steps: seq<Step>, step: Step) returns (longer: seq<Step>)
    requires Runs(s, steps) && Enabled(After(s, steps), step)
    ensures Runs(s, longer) && After(s, longer) == Next(After(s, steps), step)
    decreases steps
  {
    if steps == [] {
      longer := Prepend(s, step, []);
    } else {
      var rest := Append(Next(s, steps[0]), steps[1..], step);
      longer := Prepend(s, steps[0], rest);
    }
  }

  // One request leads, and its replay is under way.
  lemma ReplayBegins() returns (steps: seq<Step>)
    ensures Runs(START, steps)
    ensures After(START, steps) == State(true, [1], Replaying(0, 1), {}, {}, {}, [], [], None, {1}, [1])
  {
    steps := Append(START, [], Fails(1));
    steps := Append(START, steps, TokenFound(1));
    assert After(START, steps) == State(true, [1], Refreshing, {}, {}, {}, [], [], None, {1}, [1]);
    steps := Append(START, steps, Refreshed(true));
    steps := Append(START, steps, TokenRead(true));
  }

  // A second request joins during the replay, and is lost when the interceptor is idle again.
  lemma LossPossible() returns (steps: seq<Step>)
    ensures Runs(START, steps) && After(START, steps).phase.Idle? && After(START, steps).lost != []
  {
    steps := ReplayBegins();
    steps := Append(START, steps, Fails(2));
    var late := Append(START, steps, TokenFound(2));
    LateIsDoomedAfter(steps, 2);
    steps := Append(START, late, Replayed(Response));
    var s := After(START, steps);
    assert s.phase.Clearing?;
    steps := Append(START, steps, Cleared(true));
    DoomedStep(After(START, late), Replayed(Response), 2);
    DoomedStep(s, Cleared(true), 2);
  }

  lemma LateIsDoomedAfter(before: seq<Step>, r: Request)
    requires Runs(START, before) && After(START, before).phase.Replaying?
    requires Enabled(After(START, before), TokenFound(r))
    ensures Doomed(Next(After(START, before), TokenFound(r)), r)
  {
    RunKeeps(START, before);
    LateIsDoomed(After(START, before), r, r);
  }

  // The replayed request is refused again, and the interceptor hangs: in its own queue, or because the
  // storage throws.
  lemma HangPossible() returns (queued: seq<Step>, thrown: seq<Step>)
    ensures Runs(START, queued) && Hung(After(START, queued), 2) && 2 in After(START, queued).queue
    ensures Runs(START, thrown) && Hung(After(START, thrown), 2) && 2 in After(START, thrown).stuck
  {
    var steps := ReplayBegins();
    steps := Append(START, steps, RetryFails(2));
    assert After(START, steps) == State(true, [1], Replaying(0, 1), {2}, {}, {}, [], [], Some(2), {1, 2}, [1]);
    RetryJoinHangs(steps, 2);
    queued := Append(START, steps, TokenFound(2));
    thrown := Append(START, steps, StorageFails(2));
  }
}

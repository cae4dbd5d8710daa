/**
 What becomes of the requests in the client's queue as a function of the steps of a run alone: which are
 answered, with what and in which order, and which are dropped.  It knows neither the phases of the
 interceptor nor which completers are complete, and the interceptor is proved to agree with it in every
 run.
 */
module RefreshHistory {
  import opened RefreshQueue

  // waiting: who has joined since the interceptor was last idle, in order; replays: how many of them have
  // come back from their replay; length: how many had joined when the replays began.
  datatype Record = Record(waiting: seq<Request>, replays: nat, length: nat,
                           answered: seq<Settled>, dropped: seq<Request>)

  const NOTHING: Record := Record([], 0, 0, [], [])

  function Failed(requests: seq<Request>): seq<Settled> {
    seq(|requests|, i requires 0 <= i < |requests| => Settled(requests[i], Error))
  }

  function Note(o: Record, step: Step): Record {
    match step
    case TokenFound(r) => o.(waiting := o.waiting + [r])
    case TokenRead(ok) => if ok then o.(length := |o.waiting|) else o
    case Replayed(outcome) =>
      if o.replays >= |o.waiting| then o
      else
        // The request gets what came back.  The last one ends the refresh, unless others have joined.
        var answered := o.answered + [Settled(o.waiting[o.replays], outcome)];
        if o.replays + 1 == o.length == |o.waiting| then Record([], 0, 0, answered, o.dropped)
        else o.(replays := o.replays + 1, answered := answered)
    case Cleared(ok) =>
      // Before any replay all get the error; after one, whoever has not been replayed gets nothing.
      if ok && o.replays == 0 then Record([], 0, 0, o.answered + Failed(o.waiting), o.dropped)
      else if o.replays <= |o.waiting| then Record([], 0, 0, o.answered, o.dropped + o.waiting[o.replays..])
      else o
    case _ => o
  }

  function Story(o: Record, steps: seq<Step>): Record
    decreases steps
  {
    if steps == [] then o else Story(Note(o, steps[0]), steps[1..])
  }

  // How far the replays are can be read off the phase, or off the queue while an exception is handled.
  ghost predicate Agrees(s: State, o: Record) {
    && s.queue == o.waiting && s.settled == o.answered && s.lost == o.dropped
    && o.replays <= |o.waiting| && Front(s, o.replays)
    && (s.phase.Idle? || s.phase.Refreshing? || s.phase.Reading? ==> o.replays == 0)
    && (s.phase.Replaying? ==> o.replays == s.phase.next && o.length == s.phase.length)
  }

  lemma {:induction false} UnsettledIsRest(queue: seq<Request>, settled: seq<Settled>, n: nat)
    requires n <= |queue| && forall i :: 0 <= i < |queue| ==> (Done(settled, queue[i]) <==> i < n)
    ensures Unsettled(queue, settled) == queue[n..]
    decreases queue
  {
    if queue != [] {
      UnsettledIsRest(queue[1..], settled, if n == 0 then 0 else n - 1);
    }
  }

  lemma JoinAgrees(s: State, o: Record, r: Request)
    requires Inv(s) && Agrees(s, o) && Enabled(s, TokenFound(r))
    ensures Agrees(Next(s, TokenFound(r)), Note(o, TokenFound(r)))
  {
  }

  lemma ReplayAgrees(s: State, o: Record, outcome: Outcome)
    requires Inv(s) && Agrees(s, o) && Enabled(s, Replayed(outcome))
    ensures Agrees(Next(s, Replayed(outcome)), Note(o, Replayed(outcome)))
  {
    var i := s.phase.next;
    var settled := s.settled + [Settled(s.queue[i], outcome)];
    ReplayedFront(s, outcome);
    if i + 1 == s.phase.length == |s.queue| {
      UnsettledIsRest(s.queue, settled, i + 1);
      assert s.queue[|s.queue|..] == [];
    }
  }

  lemma ClearAgrees(s: State, o: Record, ok: bool)
    requires Inv(s) && Agrees(s, o) && Enabled(s, Cleared(ok))
    ensures Agrees(Next(s, Cleared(ok)), Note(o, Cleared(ok)))
  {
    if ok && o.replays == 0 {
      FailsAll(s.queue, s.settled);
      assert Errors(s.queue) == Failed(s.queue);
      ClearedAll(s);
    } else {
      if ok {
        assert Done(s.settled, s.queue[0]);
      }
      UnsettledIsRest(s.queue, s.settled, o.replays);
    }
  }

  lemma AgreesStep(s: State, o: Record, step: Step)
    requires Inv(s) && Agrees(s, o) && Enabled(s, step)
    ensures Agrees(Next(s, step), Note(o, step))
  {
    match step
    case TokenFound(r) => JoinAgrees(s, o, r);
    case Replayed(outcome) => ReplayAgrees(s, o, outcome);
    case Cleared(ok) => ClearAgrees(s, o, ok);
    case _ =>
  }

  lemma {:induction false} AgreesRun(s: State, o: Record, steps: seq<Step>)
    requires Inv(s) && Agrees(s, o) && Runs(s, steps)
    ensures Agrees(After(s, steps), Story(o, steps))
    decreases steps
  {
    if steps != [] {
      StepKeeps(s, steps[0]);
      AgreesStep(s, o, steps[0]);
      AgreesRun(Next(s, steps[0]), Note(o, steps[0]), steps[1..]);
    }
  }

  // In every run, each replayed request is settled with what its own replay brought, in the order of the
  // queue; after a failed refresh all are settled with the error; and dropped are exactly those that the
  // two leave out.
  lemma AnsweredByHistory(steps: seq<Step>)
    requires Runs(START, steps)
    ensures var end, o := After(START, steps), Story(NOTHING, steps);
      end.settled == o.answered && end.lost == o.dropped && end.queue == o.waiting
  {
    AgreesRun(START, NOTHING, steps);
  }
}

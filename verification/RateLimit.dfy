/**
 The token bucket behind the rate limiter.  The refill and the spending of one request happen under
 two separate acquisitions of the lock, so steps of other requests, to the same address as well, can
 fall in between.  Times are seconds and amounts of tokens are real numbers.
 */
module RateLimit {
  type Address = string

  datatype Config = Config(rps: real, burst: int)

  datatype Bucket = Bucket(remaining: real, lastSeen: real)

  function Full(cfg: Config): real {
    cfg.burst as real
  }

  function Min(a: real, b: real): real {
    if a < b then a else b
  }

  // What time adds between two timestamps; less than nothing when they are out of order.
  function Gain(cfg: Config, since: real, now: real): real {
    (now - since) * cfg.rps
  }

  lemma GainAdds(cfg: Config, a: real, b: real, c: real)
    ensures Gain(cfg, a, b) + Gain(cfg, b, c) == Gain(cfg, a, c)
    ensures Gain(cfg, a, a) == 0.0
  {
  }

  function Refilled(cfg: Config, b: Bucket, now: real): Bucket {
    Bucket(Min(b.remaining + Gain(cfg, b.lastSeen, now), Full(cfg)), now)
  }

  // The bucket of an address after the first half of a request: a new one is full.
  function Seen(cfg: Config, table: map<Address, Bucket>, ip: Address, now: real): map<Address, Bucket> {
    table[ip := if ip in table then Refilled(cfg, table[ip], now) else Bucket(Full(cfg), now)]
  }

  predicate Admits(table: map<Address, Bucket>, ip: Address) {
    ip in table && table[ip].remaining >= 1.0
  }

  // The second half: one token is spent, or the request is turned away.
  function Spent(table: map<Address, Bucket>, ip: Address): map<Address, Bucket> {
    if Admits(table, ip) then table[ip := table[ip].(remaining := table[ip].remaining - 1.0)] else table
  }

  // The amounts written out, for the statements of the results.
  lemma GainIs(cfg: Config, since: real, now: real)
    ensures Gain(cfg, since, now) == cfg.rps * (now - since) && Full(cfg) == cfg.burst as real
  {
  }

  // The first half of a request: a new address starts with the burst, and a known one gets the rate
  // times the time since its timestamp, up to the burst; no other address notices.
  lemma FirstHalf(cfg: Config, table: map<Address, Bucket>, ip: Address, now: real)
    ensures var after := Seen(cfg, table, ip, now);
      && ip in after && after[ip].lastSeen == now && after == table[ip := after[ip]]
      && (ip !in table ==> after[ip].remaining == cfg.burst as real)
      && (ip in table ==>
            var filled := table[ip].remaining + cfg.rps * (now - table[ip].lastSeen);
            after[ip].remaining == if filled <= cfg.burst as real then filled else cfg.burst as real)
  {
    if ip in table {
      GainIs(cfg, table[ip].lastSeen, now);
    }
  }

  // The second half: exactly one token is taken, exactly when there is one.
  lemma SecondHalf(table: map<Address, Bucket>, ip: Address)
    requires ip in table
    ensures var rest := table[ip].remaining;
      Spent(table, ip)
      == if rest < 1.0 then table else table[ip := Bucket(rest - 1.0, table[ip].lastSeen)]
  {
  }

  class Visitor {
    var remaining: real
    var lastSeen: real

    constructor (remaining: real, lastSeen: real)
      ensures this.remaining == remaining && this.lastSeen == lastSeen
    {
      this.remaining, this.lastSeen := remaining, lastSeen;
    }
  }

  class RateLimiter {
    const cfg: Config
    var visitors: map<Address, Visitor>

    // Each address has a visitor of its own.
    ghost predicate Valid()
      reads this
    {
      forall a, b :: a in visitors && b in visitors && visitors[a] == visitors[b] ==> a == b
    }

    function Table(): map<Address, Bucket>
      reads this, visitors.Values
    {
      map ip | ip in visitors :: Bucket(visitors[ip].remaining, visitors[ip].lastSeen)
    }

    constructor (rps: real, burst: int)
      ensures Valid() && Table() == map[] && cfg == Config(rps, burst)
    {
      cfg := Config(rps, burst);
      visitors := map[];
    }

    method GetVisitor(ip: Address, now: real) returns (v: Visitor)
      requires Valid()
      modifies this, visitors.Values
      ensures Valid() && fresh(visitors.Values - old(visitors.Values))
      ensures Table() == Seen(cfg, old(Table()), ip, now)
      ensures ip in visitors && visitors[ip] == v && v.lastSeen == now
      ensures ip !in old(visitors) ==> v.remaining == cfg.burst as real
      ensures ip in old(visitors) ==>
        var filled := old(visitors[ip].remaining) + cfg.rps * (now - old(visitors[ip].lastSeen));
        v.remaining == if filled <= cfg.burst as real then filled else cfg.burst as real
    {
      if ip !in visitors {
        v := new Visitor(cfg.burst as real, now);
        visitors := visitors[ip := v];
        return;
      }
      v := visitors[ip];
      ghost var before := Bucket(v.remaining, v.lastSeen);
      var elapsed := now - v.lastSeen;
      assert elapsed * cfg.rps == Gain(cfg, before.lastSeen, now);
      v.remaining := v.remaining + elapsed * cfg.rps;
      if v.remaining > cfg.burst as real {
        v.remaining := cfg.burst as real;
      }
      v.lastSeen := now;
      assert Bucket(v.remaining, v.lastSeen) == Refilled(cfg, before, now);
      assert Table() == old(Table())[ip := Bucket(v.remaining, v.lastSeen)];
    }

    // What the middleware does with the visitor once it holds the lock again.
    method Spend(ip: Address, v: Visitor) returns (admitted: bool)
      requires Valid() && ip in visitors && visitors[ip] == v
      modifies v
      ensures Valid() && visitors == old(visitors)
      ensures admitted <==> Admits(old(Table()), ip)
      ensures Table() == Spent(old(Table()), ip)
    {
      if v.remaining < 1.0 {
        return false;
      }
      v.remaining := v.remaining - 1.0;
      return true;
    }
  }

  // ----- Interleaved runs -----

  // The two halves of a request; nothing is assumed about the order of the timestamps.
  datatype Step = See(ip: Address, now: real) | Take(ip: Address)

  function Next(cfg: Config, table: map<Address, Bucket>, step: Step): map<Address, Bucket> {
    match step
    case See(ip, now) => Seen(cfg, table, ip, now)
    case Take(ip) => Spent(table, ip)
  }

  function Run(cfg: Config, table: map<Address, Bucket>, steps: seq<Step>): map<Address, Bucket> {
    if steps == [] then table else Next(cfg, Run(cfg, table, steps[..|steps| - 1]), steps[|steps| - 1])
  }

  // How many requests of an address a run admits.
  function Admitted(cfg: Config, table: map<Address, Bucket>, steps: seq<Step>, ip: Address): nat {
    if steps == [] then 0
    else
      var front := steps[..|steps| - 1];
      Admitted(cfg, table, front, ip)
      + if steps[|steps| - 1] == Take(ip) && Admits(Run(cfg, table, front), ip) then 1 else 0
  }

  // Between two moments of a bucket: what is left and what was admitted come out of what was there
  // and what time has added.
  predicate Paid(cfg: Config, first: Bucket, last: Bucket, admitted: nat) {
    last.remaining + admitted as real <= first.remaining + Gain(cfg, first.lastSeen, last.lastSeen)
  }

  lemma PaidRefill(cfg: Config, first: Bucket, last: Bucket, admitted: nat, now: real)
    requires Paid(cfg, first, last, admitted)
    ensures Paid(cfg, first, Refilled(cfg, last, now), admitted)
  {
    GainAdds(cfg, first.lastSeen, last.lastSeen, now);
  }

  // One step of a run, seen from one address whose bucket exists.
  lemma PaidStep(cfg: Config, first: Bucket, table: map<Address, Bucket>, step: Step, ip: Address, admitted: nat)
    requires ip in table && Paid(cfg, first, table[ip], admitted)
    ensures ip in Next(cfg, table, step)
    ensures Paid(cfg, first, Next(cfg, table, step)[ip],
                 admitted + if step == Take(ip) && Admits(table, ip) then 1 else 0)
  {
    if step.See? && step.ip == ip {
      PaidRefill(cfg, first, table[ip], admitted, step.now);
    }
  }

  lemma {:induction false} PaidRun(cfg: Config, table: map<Address, Bucket>, steps: seq<Step>, ip: Address)
    requires ip in table
    ensures ip in Run(cfg, table, steps)
    ensures Paid(cfg, table[ip], Run(cfg, table, steps)[ip], Admitted(cfg, table, steps, ip))
    decreases steps
  {
    if steps == [] {
      NothingPaid(cfg, table[ip]);
    } else {
      var front, step := steps[..|steps| - 1], steps[|steps| - 1];
      PaidRun(cfg, table, front, ip);
      PaidStep(cfg, table[ip], Run(cfg, table, front), step, ip, Admitted(cfg, table, front, ip));
    }
  }

  lemma NothingPaid(cfg: Config, b: Bucket)
    ensures Paid(cfg, b, b, 0)
  {
    GainAdds(cfg, b.lastSeen, b.lastSeen, b.lastSeen);
  }

  // What is left and what was admitted come out of what was there and what the rate has added.
  predicate FromTheRate(cfg: Config, first: Bucket, last: Bucket, admitted: nat) {
    last.remaining + admitted as real <= first.remaining + cfg.rps * (last.lastSeen - first.lastSeen)
  }

  lemma PaidFromTheRate(cfg: Config, first: Bucket, last: Bucket, admitted: nat)
    requires Paid(cfg, first, last, admitted)
    ensures FromTheRate(cfg, first, last, admitted)
  {
    GainIs(cfg, first.lastSeen, last.lastSeen);
  }

  lemma NothingFromNowhere(cfg: Config, table: map<Address, Bucket>, steps: seq<Step>, ip: Address)
    requires ip in table
    ensures ip in Run(cfg, table, steps)
    ensures FromTheRate(cfg, table[ip], Run(cfg, table, steps)[ip], Admitted(cfg, table, steps, ip))
  {
    PaidRun(cfg, table, steps, ip);
    PaidFromTheRate(cfg, table[ip], Run(cfg, table, steps)[ip], Admitted(cfg, table, steps, ip));
  }

  lemma {:induction false} NeverOverfull(cfg: Config, steps: seq<Step>, ip: Address)
    requires ip in Run(cfg, map[], steps)
    ensures Run(cfg, map[], steps)[ip].remaining <= Full(cfg)
    decreases steps
  {
    if steps != [] && ip in Run(cfg, map[], steps[..|steps| - 1]) {
      NeverOverfull(cfg, steps[..|steps| - 1], ip);
    }
  }

  // No more than the burst and what the rate adds between the two timestamps.
  predicate WithinRate(cfg: Config, first: Bucket, last: Bucket, admitted: nat) {
    admitted as real <= cfg.burst as real + cfg.rps * (last.lastSeen - first.lastSeen)
  }

  // In any interleaving, with timestamps in any order: the requests of an address admitted after some
  // step, up to and including an admitting step, number at most the burst plus the rate times the
  // difference of the bucket's timestamps at the two steps.
  lemma AdmissionBound(cfg: Config, before: seq<Step>, steps: seq<Step>, ip: Address)
    requires ip in Run(cfg, map[], before)
    requires steps != [] && steps[|steps| - 1] == Take(ip)
    requires Admits(Run(cfg, Run(cfg, map[], before), steps[..|steps| - 1]), ip)
    ensures var first := Run(cfg, map[], before);
      var last := Run(cfg, first, steps);
      ip in last && WithinRate(cfg, first[ip], last[ip], Admitted(cfg, first, steps, ip))
  {
    var first := Run(cfg, map[], before);
    NeverOverfull(cfg, before, ip);
    PaidRun(cfg, first, steps, ip);
    SpentLeavesSome(Run(cfg, first, steps[..|steps| - 1]), ip);
    PaidBound(cfg, first[ip], Run(cfg, first, steps)[ip], Admitted(cfg, first, steps, ip));
  }

  lemma SpentLeavesSome(table: map<Address, Bucket>, ip: Address)
    requires Admits(table, ip)
    ensures ip in Spent(table, ip) && 0.0 <= Spent(table, ip)[ip].remaining
  {
  }

  lemma PaidBound(cfg: Config, first: Bucket, last: Bucket, admitted: nat)
    requires Paid(cfg, first, last, admitted) && first.remaining <= Full(cfg) && 0.0 <= last.remaining
    ensures WithinRate(cfg, first, last, admitted)
  {
    GainIs(cfg, first.lastSeen, last.lastSeen);
  }

  function Only(steps: seq<Step>, ip: Address): seq<Step> {
    if steps == [] then []
    else Only(steps[..|steps| - 1], ip) + if steps[|steps| - 1].ip == ip then [steps[|steps| - 1]] else []
  }

  // The two tables agree on the address.
  predicate SameAt(a: map<Address, Bucket>, b: map<Address, Bucket>, ip: Address) {
    (ip in a <==> ip in b) && (ip in a ==> a[ip] == b[ip])
  }

  lemma OwnStep(cfg: Config, a: map<Address, Bucket>, b: map<Address, Bucket>, step: Step, ip: Address)
    requires SameAt(a, b, ip)
    ensures step.ip == ip ==> SameAt(Next(cfg, a, step), Next(cfg, b, step), ip)
    ensures step.ip != ip ==> SameAt(Next(cfg, a, step), b, ip)
    ensures Admits(a, ip) <==> Admits(b, ip)
  {
  }

  // An address is served as if it were alone: the steps of other addresses change neither its bucket
  // nor the number of its admissions.
  lemma {:induction false} Independent(cfg: Config, steps: seq<Step>, ip: Address)
    ensures SameAt(Run(cfg, map[], steps), Run(cfg, map[], Only(steps, ip)), ip)
    ensures Admitted(cfg, map[], steps, ip) == Admitted(cfg, map[], Only(steps, ip), ip)
    decreases steps
  {
    if steps != [] {
      var front, step := steps[..|steps| - 1], steps[|steps| - 1];
      var own := Only(front, ip);
      Independent(cfg, front, ip);
      OwnStep(cfg, Run(cfg, map[], front), Run(cfg, map[], own), step, ip);
      if step.ip == ip {
        assert Only(steps, ip)[..|own|] == own;
      } else {
        assert Only(steps, ip) == own;
      }
    }
  }

  // ----- One address, one request after the other -----

  // The bucket of a fresh address when the k-th of its requests has been refilled for, and when it
  // has spent.
  function Ready(cfg: Config, times: seq<real>, k: nat): Bucket
    requires k < |times|
    decreases k, 0
  {
    if k == 0 then Bucket(Full(cfg), times[0]) else Refilled(cfg, Done(cfg, times, k - 1), times[k])
  }

  function Done(cfg: Config, times: seq<real>, k: nat): Bucket
    requires k < |times|
    decreases k, 1
  {
    var b := Ready(cfg, times, k);
    if b.remaining < 1.0 then b else b.(remaining := b.remaining - 1.0)
  }

  predicate Passes(cfg: Config, times: seq<real>, k: nat)
    requires k < |times|
  {
    Ready(cfg, times, k).remaining >= 1.0
  }

  // How many of the requests i, .., k - 1 pass.
  function Passed(cfg: Config, times: seq<real>, i: nat, k: nat): nat
    requires i <= k <= |times|
  {
    if i == k then 0 else Passed(cfg, times, i, k - 1) + if Passes(cfg, times, k - 1) then 1 else 0
  }

  // What the k-th request would find had the bucket been full at the i-th and never capped since.
  function Since(cfg: Config, times: seq<real>, i: nat, k: nat): real
    requires i <= k < |times|
  {
    if i == k then Full(cfg) else Since(cfg, times, i, k - 1) + Change(cfg, times, k - 1)
  }

  // From one request to the next: what the request takes, and what time adds.
  function Change(cfg: Config, times: seq<real>, k: nat): real
    requires k + 1 < |times|
  {
    Gain(cfg, times[k], times[k + 1]) - if Passes(cfg, times, k) then 1.0 else 0.0
  }

  lemma {:induction false} SinceClosed(cfg: Config, times: seq<real>, i: nat, k: nat)
    requires i <= k < |times|
    ensures Since(cfg, times, i, k) == Full(cfg) + Gain(cfg, times[i], times[k]) - Passed(cfg, times, i, k) as real
    decreases k
  {
    if i == k {
      GainAdds(cfg, times[k], times[k], times[k]);
    } else {
      SinceClosed(cfg, times, i, k - 1);
      GainAdds(cfg, times[i], times[k - 1], times[k]);
    }
  }

  // The lazy refill in closed form: what a request finds is the least, over all requests up to it, of
  // what it would find had the bucket been full at that one and never capped since.
  lemma {:induction false} ReadyIsMin(cfg: Config, times: seq<real>, k: nat)
    requires k < |times|
    ensures forall i :: 0 <= i <= k ==> Ready(cfg, times, k).remaining <= Since(cfg, times, i, k)
    ensures exists i :: 0 <= i <= k && Ready(cfg, times, k).remaining == Since(cfg, times, i, k)
    ensures Ready(cfg, times, k).lastSeen == times[k]
  {
    assert Since(cfg, times, k, k) == Full(cfg);
    if k > 0 {
      ReadyIsMin(cfg, times, k - 1);
      ReadyNext(cfg, times, k - 1);
      var i :| 0 <= i <= k - 1 && Ready(cfg, times, k - 1).remaining == Since(cfg, times, i, k - 1);
      assert Ready(cfg, times, k).remaining == Min(Since(cfg, times, i, k), Since(cfg, times, k, k));
    }
  }

  // What the k-th request finds, counted from the i-th: the burst and what the rate has added since,
  // less what has passed in between.
  function Budget(cfg: Config, times: seq<real>, i: nat, k: nat): real
    requires i <= k < |times|
  {
    cfg.burst as real + cfg.rps * (times[k] - times[i]) - Passed(cfg, times, i, k) as real
  }

  // The lazily refilled bucket is the least of these budgets.
  lemma LazyIsLeast(cfg: Config, times: seq<real>, k: nat)
    requires k < |times|
    ensures forall i :: 0 <= i <= k ==> Ready(cfg, times, k).remaining <= Budget(cfg, times, i, k)
    ensures exists i :: 0 <= i <= k && Ready(cfg, times, k).remaining == Budget(cfg, times, i, k)
  {
    ReadyIsMin(cfg, times, k);
    forall i | 0 <= i <= k
      ensures Since(cfg, times, i, k) == Budget(cfg, times, i, k)
    {
      SinceClosed(cfg, times, i, k);
      GainIs(cfg, times[i], times[k]);
    }
    var i :| 0 <= i <= k && Ready(cfg, times, k).remaining == Since(cfg, times, i, k);
    assert Ready(cfg, times, k).remaining == Budget(cfg, times, i, k);
  }

  lemma ReadyNext(cfg: Config, times: seq<real>, k: nat)
    requires k + 1 < |times| && Ready(cfg, times, k).lastSeen == times[k]
    ensures Ready(cfg, times, k + 1).remaining == Min(Ready(cfg, times, k).remaining + Change(cfg, times, k), Full(cfg))
  {
  }

  // Requests i to j fit: they are no more than the burst and what the rate adds from the first of
  // them to the last.
  predicate Fits(cfg: Config, times: seq<real>, i: nat, j: nat)
    requires i <= j < |times|
  {
    (j - i + 1) as real <= cfg.burst as real + cfg.rps * (times[j] - times[i])
  }

  lemma {:induction false} AllPassed(cfg: Config, times: seq<real>, i: nat, k: nat)
    requires i <= k <= |times| && forall j :: i <= j < k ==> Passes(cfg, times, j)
    ensures Passed(cfg, times, i, k) == k - i
    decreases k
  {
    if i < k {
      AllPassed(cfg, times, i, k - 1);
    }
  }

  // Given that all requests before it pass, a request passes exactly when every stretch of requests
  // that ends with it fits.
  lemma PassesIffFits(cfg: Config, times: seq<real>, k: nat)
    requires k < |times| && forall j :: 0 <= j < k ==> Passes(cfg, times, j)
    ensures Passes(cfg, times, k) <==> forall i :: 0 <= i <= k ==> Fits(cfg, times, i, k)
  {
    ReadyIsMin(cfg, times, k);
    forall i | 0 <= i <= k
      ensures Fits(cfg, times, i, k) <==> 1.0 <= Since(cfg, times, i, k)
    {
      FitsIffEnough(cfg, times, i, k);
    }
  }

  lemma FitsIffEnough(cfg: Config, times: seq<real>, i: nat, k: nat)
    requires i <= k < |times| && forall j :: i <= j < k ==> Passes(cfg, times, j)
    ensures Fits(cfg, times, i, k) <==> 1.0 <= Since(cfg, times, i, k)
  {
    AllPassed(cfg, times, i, k);
    SinceClosed(cfg, times, i, k);
    GainIs(cfg, times[i], times[k]);
    assert (k - i + 1) as real == (k - i) as real + 1.0;
  }

  lemma AllPassIffAllFit(cfg: Config, times: seq<real>)
    ensures (forall k :: 0 <= k < |times| ==> Passes(cfg, times, k))
       <==> (forall i, j :: 0 <= i <= j < |times| ==> Fits(cfg, times, i, j))
  {
    if forall k :: 0 <= k < |times| ==> Passes(cfg, times, k) {
      forall i, j | 0 <= i <= j < |times|
        ensures Fits(cfg, times, i, j)
      {
        PassesIffFits(cfg, times, j);
      }
    }
    if forall i, j :: 0 <= i <= j < |times| ==> Fits(cfg, times, i, j) {
      FitsPass(cfg, times, |times|);
    }
  }

  lemma {:induction false} FitsPass(cfg: Config, times: seq<real>, k: nat)
    requires k <= |times| && forall i, j :: 0 <= i <= j < |times| ==> Fits(cfg, times, i, j)
    ensures forall j :: 0 <= j < k ==> Passes(cfg, times, j)
    decreases k
  {
    if k > 0 {
      FitsPass(cfg, times, k - 1);
      PassesIffFits(cfg, times, k - 1);
    }
  }

  // The run of these requests: each is seen and spends before the next one arrives.
  function OneByOne(ip: Address, times: seq<real>, n: nat): seq<Step>
    requires n <= |times|
  {
    if n == 0 then [] else OneByOne(ip, times, n - 1) + [See(ip, times[n - 1])] + [Take(ip)]
  }

  lemma RunSnoc(cfg: Config, table: map<Address, Bucket>, steps: seq<Step>, step: Step, ip: Address)
    ensures Run(cfg, table, steps + [step]) == Next(cfg, Run(cfg, table, steps), step)
    ensures Admitted(cfg, table, steps + [step], ip)
         == Admitted(cfg, table, steps, ip) + if step == Take(ip) && Admits(Run(cfg, table, steps), ip) then 1 else 0
  {
    assert (steps + [step])[..|steps|] == steps;
  }

  // After n requests the address has the bucket, and as many admissions, as counted one by one.
  predicate CountedOff(cfg: Config, ip: Address, times: seq<real>, n: nat, table: map<Address, Bucket>, admitted: nat)
    requires n <= |times|
  {
    && admitted == Passed(cfg, times, 0, n)
    && if n == 0 then ip !in table else ip in table && table[ip] == Done(cfg, times, n - 1)
  }

  lemma OneMore(cfg: Config, ip: Address, times: seq<real>, n: nat, table: map<Address, Bucket>, admitted: nat)
    requires n < |times| && CountedOff(cfg, ip, times, n, table, admitted)
    ensures var seen := Next(cfg, table, See(ip, times[n]));
      CountedOff(cfg, ip, times, n + 1, Next(cfg, seen, Take(ip)), admitted + if Admits(seen, ip) then 1 else 0)
  {
    assert Next(cfg, table, See(ip, times[n]))[ip] == Ready(cfg, times, n);
  }

  lemma TwoMoreSteps(cfg: Config, steps: seq<Step>, ip: Address, now: real)
    ensures var table, longer := Run(cfg, map[], steps), steps + [See(ip, now)] + [Take(ip)];
      var seen := Next(cfg, table, See(ip, now));
      && Run(cfg, map[], longer) == Next(cfg, seen, Take(ip))
      && Admitted(cfg, map[], longer, ip) == Admitted(cfg, map[], steps, ip) + if Admits(seen, ip) then 1 else 0
  {
    RunSnoc(cfg, map[], steps, See(ip, now), ip);
    RunSnoc(cfg, map[], steps + [See(ip, now)], Take(ip), ip);
  }

  // The run of the first n requests does count them off.
  predicate RunCounts(cfg: Config, ip: Address, times: seq<real>, n: nat)
    requires n <= |times|
  {
    var steps := OneByOne(ip, times, n);
    CountedOff(cfg, ip, times, n, Run(cfg, map[], steps), Admitted(cfg, map[], steps, ip))
  }

  lemma RunCountsNext(cfg: Config, ip: Address, times: seq<real>, n: nat)
    requires n < |times| && RunCounts(cfg, ip, times, n)
    ensures RunCounts(cfg, ip, times, n + 1)
  {
    var steps := OneByOne(ip, times, n);
    OneMore(cfg, ip, times, n, Run(cfg, map[], steps), Admitted(cfg, map[], steps, ip));
    TwoMoreSteps(cfg, steps, ip, times[n]);
    assert OneByOne(ip, times, n + 1) == steps + [See(ip, times[n])] + [Take(ip)];
  }

  lemma {:induction false} OneByOneRun(cfg: Config, ip: Address, times: seq<real>, n: nat)
    requires n <= |times|
    ensures RunCounts(cfg, ip, times, n)
    decreases n
  {
    if n > 0 {
      OneByOneRun(cfg, ip, times, n - 1);
      RunCountsNext(cfg, ip, times, n - 1);
    }
  }

  lemma {:induction false} PassedAll(cfg: Config, times: seq<real>, n: nat)
    requires n <= |times|
    ensures Passed(cfg, times, 0, n) <= n
    ensures Passed(cfg, times, 0, n) == n <==> forall k :: 0 <= k < n ==> Passes(cfg, times, k)
    decreases n
  {
    if n > 0 {
      PassedAll(cfg, times, n - 1);
    }
  }

  // A sequence of requests is admitted in full exactly when every stretch of it fits into the burst
  // and what the rate adds in the meantime.
  lemma AdmittedInFull(cfg: Config, ip: Address, times: seq<real>)
    ensures Admitted(cfg, map[], OneByOne(ip, times, |times|), ip) == |times|
       <==> forall i, j :: 0 <= i <= j < |times| ==> Fits(cfg, times, i, j)
  {
    OneByOneRun(cfg, ip, times, |times|);
    PassedAll(cfg, times, |times|);
    AllPassIffAllFit(cfg, times);
  }
}

/** The limit on failed local logins: a dictionary of recent failures by
    address, pruned on every check. */
module LoginLimiter {

  const WINDOW_SECONDS: real := 300.0
  const MAX_ATTEMPTS: nat := 5

  type Address = string

  /** The failures that are less than a window old at the given time. */
  function Fresh(attempts: seq<real>, now: real): seq<real> {
    if attempts == [] then []
    else
      var t := attempts[|attempts| - 1];
      Fresh(attempts[..|attempts| - 1], now) + if now - t < WINDOW_SECONDS then [t] else []
  }

  /** Pruning keeps the failures of the last 300 seconds, each as often as it
      stands, and drops all others. */
  lemma {:induction false} FreshAre(attempts: seq<real>, now: real, t: real)
    ensures multiset(Fresh(attempts, now))[t] == if now - t < 300.0 then multiset(attempts)[t] else 0
  {
    if attempts != [] {
      FreshAre(attempts[..|attempts| - 1], now, t);
      assert attempts == attempts[..|attempts| - 1] + [attempts[|attempts| - 1]];
    }
  }

  /** Which of the failures happened in the last 300 seconds. */
  ghost function Recent(attempts: seq<real>, now: real): set<int> {
    set i | 0 <= i < |attempts| && now - attempts[i] < 300.0
  }

  lemma {:induction false} FreshCount(attempts: seq<real>, now: real)
    ensures |Fresh(attempts, now)| == |Recent(attempts, now)|
  {
    if attempts == [] {
      assert Recent(attempts, now) == {};
    } else {
      var n := |attempts| - 1;
      FreshCount(attempts[..n], now);
      assert Recent(attempts, now) == Recent(attempts[..n], now) + if now - attempts[n] < 300.0 then {n} else {};
    }
  }

  /** Pruning at one time changes nothing that can be asked later. */
  lemma {:induction false} FreshLater(attempts: seq<real>, now: real, later: real)
    requires now <= later
    ensures Fresh(Fresh(attempts, now), later) == Fresh(attempts, later)
  {
    if attempts != [] {
      var init, t := attempts[..|attempts| - 1], attempts[|attempts| - 1];
      FreshLater(init, now, later);
      assert (Fresh(init, now) + [t])[..|Fresh(init, now)|] == Fresh(init, now);
      assert Fresh(init, now) + [] == Fresh(init, now);
    }
  }

  predicate Ordered(attempts: seq<real>) {
    forall i, j :: 0 <= i <= j < |attempts| ==> attempts[i] <= attempts[j]
  }

  /** If fewer than k failures are fresh, the k-th last one is not. */
  lemma {:induction false} FewFresh(attempts: seq<real>, now: real, k: nat)
    requires Ordered(attempts) && k <= |attempts| && k > 0
    ensures now - attempts[|attempts| - k] < WINDOW_SECONDS ==> |Fresh(attempts, now)| >= k
  {
    var init := attempts[..|attempts| - 1];
    if k > 1 {
      FewFresh(init, now, k - 1);
      assert init[|init| - (k - 1)] == attempts[|attempts| - k];
    }
  }

  lemma {:induction false} FreshShrinks(attempts: seq<real>, now: real, later: real)
    requires now <= later
    ensures |Fresh(attempts, later)| <= |Fresh(attempts, now)|
  {
    if attempts != [] {
      FreshShrinks(attempts[..|attempts| - 1], now, later);
    }
  }

  /** n + 1 failures in a row take at least 300 seconds. */
  predicate Spread(attempts: seq<real>, n: nat) {
    forall i :: 0 <= i < |attempts| - n ==> attempts[i + n] - attempts[i] >= 300.0
  }

  /** One more failure, after which no more than n are fresh. */
  lemma SpreadNext(attempts: seq<real>, n: nat, t: real)
    requires Ordered(attempts + [t]) && Spread(attempts, n)
    requires |Fresh(attempts + [t], t)| <= n
    ensures Spread(attempts + [t], n)
  {
    var more := attempts + [t];
    if |more| > n {
      FewFresh(more, t, n + 1);
    }
  }

  function Of(failures: map<Address, seq<real>>, ip: Address): seq<real> {
    if ip in failures then failures[ip] else []
  }

  /** What is remembered of an address says at any later time what all its
      failures would say. */
  ghost predicate Faithful(kept: seq<real>, full: seq<real>, clock: real) {
    && (forall t :: t >= clock ==> Fresh(kept, t) == Fresh(full, t))
    && Ordered(full)
    && (forall i :: 0 <= i < |full| ==> full[i] <= clock)
  }

  lemma FaithfulPruned(kept: seq<real>, full: seq<real>, clock: real)
    requires Faithful(kept, full, clock)
    ensures Faithful(Fresh(kept, clock), full, clock)
  {
    forall t | t >= clock
      ensures Fresh(Fresh(kept, clock), t) == Fresh(full, t)
    {
      FreshLater(kept, clock, t);
    }
  }

  lemma PrunedCounts(kept: seq<real>, full: seq<real>, now: real)
    requires Faithful(kept, full, now) && Fresh(kept, now) == kept
    ensures |kept| == |Fresh(full, now)|
  {
  }

  lemma FaithfulAppend(kept: seq<real>, full: seq<real>, clock: real, at: real)
    requires Faithful(kept, full, clock) && at >= clock
    ensures Faithful(kept + [at], full + [at], at)
  {
  }

  /** failures is what the service remembers; history is every failure of an
      address since its last successful login. */
  class Limiter {
    var failures: map<Address, seq<real>>
    ghost var history: map<Address, seq<real>>
    ghost var clock: real

    ghost predicate Valid()
      reads this
    {
      && (forall ip: Address :: Faithful(Of(failures, ip), Of(history, ip), clock))
      && (forall ip :: ip in failures ==> failures[ip] != [])
    }

    constructor (now: real)
      ensures Valid() && history == map[] && clock == now
    {
      failures, history, clock := map[], map[], now;
    }

    /** Forgets stale failures of every address, then counts those of one.  The
        answer is what the full history would give: blocked exactly with five
        failures in the last 300 seconds.  Only addresses that have any are
        still remembered. */
    method Check(ip: Address, now: real) returns (blocked: bool)
      requires Valid() && now >= clock
      modifies this
      ensures Valid() && clock == now && history == old(history)
      ensures blocked <==> |Recent(Of(history, ip), now)| >= 5
      ensures forall key :: key in failures <==> |Recent(Of(history, key), now)| > 0
    {
      clock := now;
      var todo := failures.Keys;
      while todo != {}
        invariant Valid() && clock == now && history == old(history) && todo <= failures.Keys
        invariant forall key :: key !in todo ==> Pruned(key)
        decreases todo
      {
        var key :| key in todo;
        Prune(key, now);
        todo := todo - {key};
      }
      blocked := |Of(failures, ip)| >= MAX_ATTEMPTS;
      forall key: Address
        ensures |Of(failures, key)| == |Recent(Of(history, key), now)|
      {
        assert Pruned(key);
        PrunedCounts(Of(failures, key), Of(history, key), now);
        FreshCount(Of(history, key), now);
      }
    }

    ghost predicate Pruned(key: Address)
      reads this`failures, this`clock
    {
      Fresh(Of(failures, key), clock) == Of(failures, key)
    }

    method Prune(key: Address, now: real)
      requires Valid() && key in failures && clock == now
      modifies this`failures
      ensures Valid()
      ensures forall other :: other != key && other in old(failures) ==> other in failures
      ensures Pruned(key) && forall other :: old(Pruned(other)) ==> Pruned(other)
      ensures forall other :: other != key ==> Of(failures, other) == Of(old(failures), other)
    {
      var recent := Fresh(failures[key], now);
      FaithfulPruned(failures[key], Of(history, key), clock);
      FreshLater(failures[key], clock, clock);
      assert forall other :: other != key ==> Faithful(Of(failures, other), Of(history, other), clock);
      if recent != [] {
        failures := failures[key := recent];
      } else {
        failures := failures - {key};
      }
    }

    method Register(ip: Address, at: real)
      requires Valid() && at >= clock
      modifies this
      ensures Valid() && clock == at
      ensures history == old(history)[ip := Of(old(history), ip) + [at]]
    {
      FaithfulAppend(Of(failures, ip), Of(history, ip), clock, at);
      failures := failures[ip := Of(failures, ip) + [at]];
      history := history[ip := Of(history, ip) + [at]];
      clock := at;
      forall other | other != ip
        ensures Faithful(Of(failures, other), Of(history, other), clock)
      {
        assert Faithful(Of(old(failures), other), Of(old(history), other), old(clock));
      }
    }

    method Clear(ip: Address)
      requires Valid()
      modifies this`failures, this`history
      ensures Valid() && history == old(history) - {ip}
    {
      failures := failures - {ip};
      history := history - {ip};
      forall other | other != ip
        ensures Faithful(Of(failures, other), Of(history, other), clock)
      {
        assert Faithful(Of(old(failures), other), Of(old(history), other), clock);
      }
    }
  }

  // ---- Requests that overlap ----

  datatype World = World(history: map<Address, seq<real>>, inFlight: map<nat, Address>, clock: real)

  /** A request is checked when it starts, and some time later it fails or
      succeeds.  Steps that cannot be taken are left out. */
  datatype Step =
    | Start(id: nat, ip: Address, now: real)
    | Fail(id: nat, at: real)
    | Succeed(id: nat)

  predicate Enabled(inFlight: map<nat, Address>, clock: real, s: Step) {
    match s
    case Start(id, _, now) => id !in inFlight && now >= clock
    case Fail(id, at) => id in inFlight && at >= clock
    case Succeed(id) => id in inFlight
  }

  ghost predicate Blocked(w: World, ip: Address, now: real) {
    |Recent(Of(w.history, ip), now)| >= 5
  }

  ghost function Apply(w: World, s: Step): World {
    if !Enabled(w.inFlight, w.clock, s) then w
    else match s
      case Start(id, ip, now) =>
        w.(inFlight := if Blocked(w, ip, now) then w.inFlight else w.inFlight[id := ip], clock := now)
      case Fail(id, at) =>
        var ip := w.inFlight[id];
        World(w.history[ip := Of(w.history, ip) + [at]], w.inFlight - {id}, at)
      case Succeed(id) => w.(history := w.history - {w.inFlight[id]}, inFlight := w.inFlight - {id})
  }

  ghost function After(start: real, steps: seq<Step>): World {
    if steps == [] then World(map[], map[], start)
    else Apply(After(start, steps[..|steps| - 1]), steps[|steps| - 1])
  }

  function Requests(inFlight: map<nat, Address>, ip: Address): set<nat> {
    set id | id in inFlight && inFlight[id] == ip
  }

  /** No more than k requests of the address are ever under way at once. */
  ghost predicate Crowd(start: real, steps: seq<Step>, ip: Address, k: nat) {
    forall n :: 0 <= n <= |steps| ==> |Requests(After(start, steps[..n]).inFlight, ip)| <= k
  }

  /** The failures of an address, of which no more than n can become fresh at
      once: each of the requests under way may still add one. */
  ghost predicate Tracked(h: seq<real>, clock: real, requests: nat, n: nat) {
    && Ordered(h) && (forall i :: 0 <= i < |h| ==> h[i] <= clock)
    && |Fresh(h, clock)| + requests <= n
    && Spread(h, n)
  }

  lemma TrackedLater(h: seq<real>, clock: real, requests: nat, n: nat, later: real)
    requires Tracked(h, clock, requests, n) && clock <= later
    ensures Tracked(h, later, requests, n)
  {
    FreshShrinks(h, clock, later);
  }

  lemma TrackedFailure(h: seq<real>, clock: real, requests: nat, n: nat, t: real)
    requires Tracked(h, clock, requests, n) && clock <= t && requests > 0
    ensures Tracked(h + [t], t, requests - 1, n)
  {
    FreshShrinks(h, clock, t);
    assert (h + [t])[..|h|] == h;
    SpreadNext(h, n, t);
  }

  ghost predicate Bounded(w: World, ip: Address, k: nat) {
    Tracked(Of(w.history, ip), w.clock, |Requests(w.inFlight, ip)|, MAX_ATTEMPTS - 1 + k)
  }

  lemma BoundedStart(w: World, s: Step, ip: Address, k: nat)
    requires Bounded(w, ip, k) && s.Start? && Enabled(w.inFlight, w.clock, s)
    requires |Requests(Apply(w, s).inFlight, ip)| <= k
    ensures Bounded(Apply(w, s), ip, k)
  {
    TrackedLater(Of(w.history, ip), w.clock, |Requests(w.inFlight, ip)|, MAX_ATTEMPTS - 1 + k, s.now);
    FreshCount(Of(w.history, ip), s.now);
    if s.ip != ip {
      assert Requests(Apply(w, s).inFlight, ip) == Requests(w.inFlight, ip);
    }
  }

  lemma RequestsWithout(inFlight: map<nat, Address>, id: nat, ip: Address)
    requires id in inFlight
    ensures |Requests(inFlight, ip)| == |Requests(inFlight - {id}, ip)| + if inFlight[id] == ip then 1 else 0
  {
    if inFlight[id] == ip {
      assert Requests(inFlight, ip) == Requests(inFlight - {id}, ip) + {id};
    } else {
      assert Requests(inFlight, ip) == Requests(inFlight - {id}, ip);
    }
  }

  lemma BoundedFail(w: World, s: Step, ip: Address, k: nat)
    requires Bounded(w, ip, k) && s.Fail? && Enabled(w.inFlight, w.clock, s)
    ensures Bounded(Apply(w, s), ip, k)
  {
    RequestsWithout(w.inFlight, s.id, ip);
    var h, requests := Of(w.history, ip), |Requests(w.inFlight, ip)|;
    if w.inFlight[s.id] == ip {
      TrackedFailure(h, w.clock, requests, MAX_ATTEMPTS - 1 + k, s.at);
    } else {
      TrackedLater(h, w.clock, requests, MAX_ATTEMPTS - 1 + k, s.at);
    }
  }

  lemma BoundedSucceed(w: World, s: Step, ip: Address, k: nat)
    requires Bounded(w, ip, k) && s.Succeed? && Enabled(w.inFlight, w.clock, s)
    requires |Requests(Apply(w, s).inFlight, ip)| <= k
    ensures Bounded(Apply(w, s), ip, k)
  {
    if w.inFlight[s.id] != ip {
      assert Requests(Apply(w, s).inFlight, ip) == Requests(w.inFlight, ip);
    }
  }

  lemma {:induction false} StaysBounded(start: real, steps: seq<Step>, ip: Address, k: nat)
    requires Crowd(start, steps, ip, k)
    ensures Bounded(After(start, steps), ip, k)
  {
    if steps != [] {
      var init, s := steps[..|steps| - 1], steps[|steps| - 1];
      CrowdBefore(start, steps, ip, k);
      StaysBounded(start, init, ip, k);
      var w := After(start, init);
      if Enabled(w.inFlight, w.clock, s) {
        match s
        case Start(_, _, _) => BoundedStart(w, s, ip, k);
        case Fail(_, _) => BoundedFail(w, s, ip, k);
        case Succeed(_) => BoundedSucceed(w, s, ip, k);
      }
    }
  }

  lemma CrowdBefore(start: real, steps: seq<Step>, ip: Address, k: nat)
    requires Crowd(start, steps, ip, k) && steps != []
    ensures Crowd(start, steps[..|steps| - 1], ip, k)
    ensures |Requests(After(start, steps).inFlight, ip)| <= k
  {
    var init := steps[..|steps| - 1];
    forall n | 0 <= n <= |init|
      ensures |Requests(After(start, init[..n]).inFlight, ip)| <= k
    {
      assert init[..n] == steps[..n];
    }
    assert steps[..|steps|] == steps;
  }

  /** With at most k requests of an address under way at once, any 5 + k of its
      failures in a row take at least 300 seconds.  Without overlap, k is 1. */
  lemma FailuresAreSpread(start: real, steps: seq<Step>, ip: Address, k: nat)
    requires Crowd(start, steps, ip, k)
    ensures var h := Of(After(start, steps).history, ip);
      forall i :: 0 <= i < |h| - (4 + k) ==> h[i + (4 + k)] - h[i] >= 300.0
  {
    StaysBounded(start, steps, ip, k);
  }

  /** The service, over any requests that overlap in any way. */
  method Serve(start: real, steps: seq<Step>) returns (limiter: Limiter, inFlight: map<nat, Address>)
    ensures fresh(limiter) && limiter.Valid()
    ensures After(start, steps) == World(limiter.history, inFlight, limiter.clock)
  {
    limiter := new Limiter(start);
    inFlight := map[];
    var clock := start;
    for i := 0 to |steps|
      invariant fresh(limiter) && limiter.Valid() && limiter.clock == clock
      invariant After(start, steps[..i]) == World(limiter.history, inFlight, clock)
    {
      assert steps[..i + 1][..i] == steps[..i];
      if Enabled(inFlight, clock, steps[i]) {
        match steps[i]
        case Start(id, ip, now) =>
          var blocked := limiter.Check(ip, now);
          inFlight := if blocked then inFlight else inFlight[id := ip];
          clock := now;
        case Fail(id, at) =>
          limiter.Register(inFlight[id], at);
          inFlight := inFlight - {id};
          clock := at;
        case Succeed(id) =>
          limiter.Clear(inFlight[id]);
          inFlight := inFlight - {id};
      }
    }
    assert steps[..|steps|] == steps;
  }

  // ---- The bound is reached ----

  /** The states that a run can reach with no more than k requests of the
      address under way. */
  ghost predicate Reachable(start: real, w: World, ip: Address, k: nat) {
    exists steps :: LeadTo(start, steps, w, ip, k)
  }

  ghost predicate LeadTo(start: real, steps: seq<Step>, w: World, ip: Address, k: nat) {
    Crowd(start, steps, ip, k) && After(start, steps) == w
  }

  lemma ReachNext(start: real, w: World, ip: Address, k: nat, s: Step)
    requires Reachable(start, w, ip, k) && |Requests(Apply(w, s).inFlight, ip)| <= k
    ensures Reachable(start, Apply(w, s), ip, k)
  {
    var steps :| LeadTo(start, steps, w, ip, k);
    CrowdNext(start, steps, w, ip, k, s);
    assert LeadTo(start, steps + [s], Apply(w, s), ip, k);
  }

  lemma CrowdNext(start: real, steps: seq<Step>, w: World, ip: Address, k: nat, s: Step)
    requires LeadTo(start, steps, w, ip, k) && |Requests(Apply(w, s).inFlight, ip)| <= k
    ensures LeadTo(start, steps + [s], Apply(w, s), ip, k)
  {
    var more := steps + [s];
    assert more[..|steps|] == steps;
    assert After(start, more) == Apply(w, s);
    forall n | 0 <= n <= |more|
      ensures |Requests(After(start, more[..n]).inFlight, ip)| <= k
    {
      if n <= |steps| {
        assert more[..n] == steps[..n];
      } else {
        assert more[..n] == more;
      }
    }
  }

  /** Failures of one address, all at one moment, and requests under way. */
  ghost predicate AtOnce(w: World, ip: Address, failures: nat, requests: nat) {
    && w.clock == 0.0 && |Of(w.history, ip)| == failures
    && (forall i :: 0 <= i < failures ==> Of(w.history, ip)[i] == 0.0)
    && (forall id: nat :: id in w.inFlight <==> id < requests)
    && (forall id :: id in w.inFlight ==> w.inFlight[id] == ip)
  }

  lemma {:induction false} AllFresh(attempts: seq<real>)
    requires forall i :: 0 <= i < |attempts| ==> attempts[i] == 0.0
    ensures Fresh(attempts, 0.0) == attempts
  {
    if attempts != [] {
      AllFresh(attempts[..|attempts| - 1]);
      assert attempts == attempts[..|attempts| - 1] + [attempts[|attempts| - 1]];
    }
  }

  lemma {:induction false} NumbersBelow(ids: set<nat>, n: nat)
    requires forall id: nat :: id in ids <==> id < n
    ensures |ids| == n
  {
    if n > 0 {
      NumbersBelow(ids - {n - 1}, n - 1);
    }
  }

  lemma OneStarts(w: World, ip: Address, k: nat, failures: nat, requests: nat) returns (v: World)
    requires Reachable(0.0, w, ip, k) && AtOnce(w, ip, failures, requests)
    requires failures < MAX_ATTEMPTS && requests < k
    ensures Reachable(0.0, v, ip, k) && AtOnce(v, ip, failures, requests + 1)
  {
    var s := Start(requests, ip, 0.0);
    v := Apply(w, s);
    AllFresh(Of(w.history, ip));
    FreshCount(Of(w.history, ip), 0.0);
    NumbersBelow(Requests(v.inFlight, ip), requests + 1);
    ReachNext(0.0, w, ip, k, s);
  }

  lemma OneFails(w: World, ip: Address, k: nat, failures: nat, requests: nat) returns (v: World)
    requires Reachable(0.0, w, ip, k) && AtOnce(w, ip, failures, requests) && 0 < requests <= k
    ensures Reachable(0.0, v, ip, k) && AtOnce(v, ip, failures + 1, requests - 1)
  {
    var s := Fail(requests - 1, 0.0);
    v := Apply(w, s);
    NumbersBelow(Requests(v.inFlight, ip), requests - 1);
    ReachNext(0.0, w, ip, k, s);
  }

  lemma NothingYet(ip: Address, k: nat)
    ensures Reachable(0.0, After(0.0, []), ip, k) && AtOnce(After(0.0, []), ip, 0, 0)
  {
    var none: seq<Step> := [];
    assert Requests(map[], ip) == {};
    assert none[..0] == none;
    assert LeadTo(0.0, none, After(0.0, none), ip, k);
  }

  /** And 4 + k failures can happen at one moment: the last k requests are all
      checked before any of them fails. */
  lemma OverlappingRequests(ip: Address, k: nat) returns (w: World)
    requires k > 0
    ensures Reachable(0.0, w, ip, k) && AtOnce(w, ip, 4 + k, 0)
  {
    w := After(0.0, []);
    NothingYet(ip, k);
    for i := 0 to MAX_ATTEMPTS - 1
      invariant Reachable(0.0, w, ip, k) && AtOnce(w, ip, i, 0)
    {
      w := OneStarts(w, ip, k, i, 0);
      w := OneFails(w, ip, k, i, 1);
    }
    for i := 0 to k
      invariant Reachable(0.0, w, ip, k) && AtOnce(w, ip, MAX_ATTEMPTS - 1, i)
    {
      w := OneStarts(w, ip, k, MAX_ATTEMPTS - 1, i);
    }
    for i := 0 to k
      invariant Reachable(0.0, w, ip, k) && AtOnce(w, ip, MAX_ATTEMPTS - 1 + i, k - i)
    {
      w := OneFails(w, ip, k, MAX_ATTEMPTS - 1 + i, k - i);
    }
  }
}

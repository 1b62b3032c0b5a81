// A pick written out: which replica it is, to the last tie, in terms of
// health, load and matches alone.
module RoutingTies {
  import opened LruCache
  import opened Routing
  import opened RoutingLaws
  import CacheLaws
  import Runs = SchedulerRuns

  // alpha times the match, less beta times the load.
  function Worth(f: Fleet, hashes: seq<Hash>, r: nat): real
    requires r < |f.replicas|
  {
    f.cfg.alpha * Lookup(f.replicas[r].cache, hashes) as real - f.cfg.beta * f.replicas[r].inflight as real
  }

  ghost predicate FirstOfLowestLoad(f: Fleet, c: nat) {
    && Available(f, c)
    && (forall r: nat :: Available(f, r) ==> f.replicas[c].inflight <= f.replicas[r].inflight)
    && (forall r: nat :: Available(f, r) && r < c ==> f.replicas[c].inflight < f.replicas[r].inflight)
  }

  lemma BestIsWorthMost(f: Fleet, hashes: seq<Hash>, best: nat)
    requires FirstBest(f, hashes, |f.replicas|, best)
    ensures Available(f, best)
    ensures forall r: nat :: Available(f, r) ==> Worth(f, hashes, r) <= Worth(f, hashes, best)
    ensures forall r: nat :: Available(f, r) && r < best ==> Worth(f, hashes, r) < Worth(f, hashes, best)
  {
    hide Lookup;
    forall r: nat | Available(f, r)
      ensures Worth(f, hashes, r) <= Worth(f, hashes, best)
      ensures r < best ==> Worth(f, hashes, r) < Worth(f, hashes, best)
    {
      assert Worth(f, hashes, r) == Score(f, hashes, r);
    }
  }

  lemma LeastIsLowest(f: Fleet, c: nat)
    requires FirstLeast(f, |f.replicas|, c)
    ensures FirstOfLowestLoad(f, c)
  {
  }

  // Among the replicas that are healthy and below the cap, the first one of
  // the highest score takes the request if its own match is long enough, and
  // the first one of the lowest load does otherwise.
  lemma CacheAwarePick(f: Fleet, hashes: seq<Hash>)
    requires WellFormed(f) && f.policy.CacheAware? && exists i: nat :: Available(f, i)
    ensures var o := Pick(f, hashes).1;
            && o.Routed? && Available(f, o.decision.replica)
            && o.decision.matchedBlocks == Lookup(f.replicas[o.decision.replica].cache, hashes)
            && exists best: nat ::
                 && Available(f, best)
                 && (forall r: nat :: Available(f, r) ==> Worth(f, hashes, r) <= Worth(f, hashes, best))
                 && (forall r: nat :: Available(f, r) && r < best ==> Worth(f, hashes, r) < Worth(f, hashes, best))
                 && if Lookup(f.replicas[best].cache, hashes) >= f.cfg.minMatchBlocks then o.decision.replica == best
                    else FirstOfLowestLoad(f, o.decision.replica)
  {
    hide FirstBest, FirstLeast, Routes, Available, Lookup, Pick, Admit;
    var i: nat :| Available(f, i);
    RouteExists(f, hashes, i);
    var c: nat :| Routes(f, hashes, c);
    PickRoutesTo(f, hashes, c);
    var best := RuleHolds(f, hashes, c);
    BestIsWorthMost(f, hashes, best);
    if Hits(f, hashes, best) < f.cfg.minMatchBlocks {
      LeastIsLowest(f, c);
    }
  }

  // A pick whose own match is too short has strictly less load than every
  // available replica before it; and any pick that is not less loaded than
  // one before it is worth strictly more.
  lemma TiesGoToTheFirst(f: Fleet, hashes: seq<Hash>, c: nat, r: nat)
    requires WellFormed(f) && f.policy.CacheAware? && Available(f, r) && r < c
    requires Pick(f, hashes).1.Routed? && Pick(f, hashes).1.decision.replica == c
    ensures c < |f.replicas|
    ensures Pick(f, hashes).1.decision.matchedBlocks < f.cfg.minMatchBlocks ==>
              f.replicas[c].inflight < f.replicas[r].inflight
    ensures f.replicas[c].inflight >= f.replicas[r].inflight ==> Worth(f, hashes, c) > Worth(f, hashes, r)
  {
    hide Pick, Lookup, Worth;
    CacheAwarePick(f, hashes);
  }

  lemma IdleWorth(f: Fleet, hashes: seq<Hash>, r: nat)
    requires r < |f.replicas| && f.replicas[r].inflight == 0
    ensures Lookup(f.replicas[r].cache, hashes) == 0 ==> Worth(f, hashes, r) == 0.0
  {
  }

  // On an idle fleet a request that no replica matches well enough, or at
  // all, goes to replica 0.
  lemma ColdGoesToTheFirst(f: Fleet, hashes: seq<Hash>)
    requires WellFormed(f) && f.policy.CacheAware? && f.cfg.maxInflight > 0 && |f.replicas| > 0 && AllIdle(f)
    requires || (forall i :: 0 <= i < |f.replicas| ==> Lookup(f.replicas[i].cache, hashes) < f.cfg.minMatchBlocks)
             || (forall i :: 0 <= i < |f.replicas| ==> Lookup(f.replicas[i].cache, hashes) == 0)
    ensures Pick(f, hashes).1.Routed? && Pick(f, hashes).1.decision.replica == 0
  {
    hide Pick, Lookup, Worth;
    assert Available(f, 0);
    CacheAwarePick(f, hashes);
    var c := Pick(f, hashes).1.decision.replica;
    if c > 0 {
      TiesGoToTheFirst(f, hashes, c, 0);
      IdleWorth(f, hashes, 0);
      IdleWorth(f, hashes, c);
      assert false;
    }
  }

  lemma FirstRequestGoesToTheFirst(n: nat, cfg: Config, hashes: seq<Hash>)
    requires n > 0 && cfg.maxInflight > 0
    ensures Pick(Start(n, CacheAware, cfg), hashes).1 == Routed(RouteDecision(0, 0, 1))
  {
    hide Pick, Admit, Routes;
    var f := Start(n, CacheAware, cfg);
    forall i | 0 <= i < n ensures Lookup(f.replicas[i].cache, hashes) == 0 {
      CacheLaws.NothingFound(hashes);
    }
    ColdGoesToTheFirst(f, hashes);
    PickIsExact(f, hashes);
    PickRoutesTo(f, hashes, 0);
  }

  // -------- round robin --------

  lemma AvailableIsInRange(f: Fleet)
    ensures forall r: nat :: Available(f, r) ==> r < |f.replicas|
  {
  }

  // The pick is the first available replica met going up from the turn and,
  // if there is none, going up from 0; the next turn is the one after it.
  lemma RoundRobinPick(f: Fleet, hashes: seq<Hash>)
    requires WellFormed(f) && f.policy.RoundRobin? && exists i: nat :: Available(f, i)
    ensures var (g, o) := Pick(f, hashes);
            && o.Routed? && Available(f, o.decision.replica) && o.decision.matchedBlocks == 0
            && var c := o.decision.replica;
               && g.rrNext == (if c == |f.replicas| - 1 then 0 else c + 1)
               && (c >= f.rrNext ==> forall r: nat :: Available(f, r) ==> r < f.rrNext || c <= r)
               && (c < f.rrNext ==> forall r: nat :: Available(f, r) ==> c <= r < f.rrNext)
  {
    hide Pick, Available;
    var i: nat :| Available(f, i);
    RouteExists(f, hashes, i);
    var c: nat :| Routes(f, hashes, c);
    PickRoutesTo(f, hashes, c);
    AvailableIsInRange(f);
    Wrap(|f.replicas|, c + 1);
  }

  ghost predicate AllAvailable(f: Fleet, events: seq<Runs.Event>)
    requires Runs.AllInRange(|f.replicas|, events)
  {
    forall r :: 0 <= r < |f.replicas| ==> AlwaysAvailable(f, events, r)
  }

  lemma TurnIsNext(f: Fleet, hashes: seq<Hash>)
    requires WellFormed(f) && f.policy.RoundRobin? && |f.replicas| > 0
    requires forall r: nat :: r < |f.replicas| ==> Available(f, r)
    ensures var (g, o) := Pick(f, hashes);
            o.Routed? && o.decision.replica == f.rrNext && g.rrNext == (if f.rrNext == |f.replicas| - 1 then 0 else f.rrNext + 1)
  {
    hide Pick;
    assert Available(f, f.rrNext);
    RoundRobinPick(f, hashes);
  }

  lemma Quotient(n: nat, k: nat)
    requires n > 0
    ensures k == k / n * n + k % n
  {
  }

  lemma MultiplesAreFar(n: nat, x: int)
    ensures x >= 1 ==> x * n >= n
    ensures x <= -1 ==> x * n + n <= 0
  {
    if x >= 1 {
      assert (x - 1) * n >= 0;
    }
    if x <= -1 {
      assert (-x - 1) * n >= 0;
    }
  }

  lemma Remainder(n: nat, k: nat, q: nat, r: nat)
    requires r < n && k == q * n + r
    ensures k % n == r
  {
    Quotient(n, k);
    var d, m := k / n, k % n;
    assert (q - d) * n == q * n - d * n;
    MultiplesAreFar(n, q - d);
  }

  lemma NextRemainder(n: nat, k: nat)
    requires n > 0
    ensures (k + 1) % n == if k % n == n - 1 then 0 else k % n + 1
  {
    var q, r := k / n, k % n;
    Quotient(n, k);
    if r == n - 1 {
      assert (q + 1) * n == q * n + n;
      Remainder(n, k + 1, q + 1, 0);
    } else {
      Remainder(n, k + 1, q, r + 1);
    }
  }

  // From the start, as long as every replica is available whenever a request
  // comes, the requests go to replicas 0, 1, ... n - 1, 0, 1, ... in turn.
  lemma {:induction false} TurnsFromTheStart(n: nat, cfg: Config, events: seq<Runs.Event>)
    requires n > 0 && Runs.AllInRange(n, events) && AllAvailable(Start(n, RoundRobin, cfg), events)
    ensures var f := Start(n, RoundRobin, cfg);
            && Runs.Run(f, events).rrNext == Requests(events) % n
            && |Chosen(f, events)| == Requests(events)
            && forall k :: 0 <= k < |Chosen(f, events)| ==> Chosen(f, events)[k] == k % n
    decreases |events|
  {
    hide Pick, Available;
    var f := Start(n, RoundRobin, cfg);
    if |events| > 0 {
      var front, e := events[..|events| - 1], events[|events| - 1];
      assert e in events;
      forall r | 0 <= r < n ensures AlwaysAvailable(f, front, r) {
        assert AlwaysAvailable(f, events, r);
      }
      TurnsFromTheStart(n, cfg, front);
      Runs.StartIsSafe(n, RoundRobin, cfg);
      Runs.RunIsSafe(f, front);
      var g := Runs.Run(f, front);
      if e.Request? {
        forall r: nat | r < n ensures Available(g, r) {
          assert AlwaysAvailable(f, events, r);
        }
        TurnIsNext(g, e.hashes);
        NextRemainder(n, Requests(front));
      }
    }
  }
}

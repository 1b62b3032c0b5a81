// Runs of the scheduler: what holds in every state it can reach.
module SchedulerRuns {
  import opened LruCache
  import opened Routing
  import Recency

  datatype Event =
    | Request(hashes: seq<Hash>)
    | Completed(replica: nat)
    | Lost(replica: nat)        // mark_unhealthy
    | Readmitted(replica: nat)  // mark_healthy

  // The source indexes its replicas unchecked; callers pass indices it gave.
  predicate InRange(n: nat, e: Event) {
    e.Request? || e.replica < n
  }

  predicate AllInRange(n: nat, events: seq<Event>) {
    forall e :: e in events ==> InRange(n, e)
  }

  ghost function Step(f: Fleet, e: Event): (f': Fleet)
    requires InRange(|f.replicas|, e)
    ensures |f'.replicas| == |f.replicas| && f'.policy == f.policy && f'.cfg == f.cfg
  {
    match e
    case Request(hashes) => Pick(f, hashes).0
    case Completed(r) => Complete(f, r)
    case Lost(r) => MarkUnhealthy(f, r)
    case Readmitted(r) => MarkHealthy(f, r)
  }

  ghost function Run(f: Fleet, events: seq<Event>): (f': Fleet)
    requires AllInRange(|f.replicas|, events)
    ensures |f'.replicas| == |f.replicas| && f'.policy == f.policy && f'.cfg == f.cfg
    decreases |events|
  {
    if |events| == 0 then f
    else Step(Run(f, events[..|events| - 1]), events[|events| - 1])
  }

  // -------- safety --------

  ghost predicate SafeReplica(r: Replica, policy: Policy, cfg: Config) {
    && Sound(r.cache)
    && |r.cache.stamps| <= cfg.blockBudget
    && r.inflight <= cfg.maxInflight
    && (policy.RoundRobin? || !r.healthy ==> r.cache == EMPTY)
    && (!r.healthy ==> r.inflight == 0)
  }

  // Budgets and caps are kept, a round-robin fleet never fills a cache, and
  // a replica out of routing is idle and remembered as empty.
  ghost predicate Safe(f: Fleet) {
    && WellFormed(f)
    && forall i :: 0 <= i < |f.replicas| ==> SafeReplica(f.replicas[i], f.policy, f.cfg)
  }

  lemma StartIsSafe(n: nat, policy: Policy, cfg: Config)
    ensures Safe(Start(n, policy, cfg))
  {
  }

  lemma ServedReplicaIsSafe(f: Fleet, hashes: seq<Hash>, i: nat)
    requires Safe(f) && Available(f, i)
    ensures SafeReplica(Admit(f, hashes, i).replicas[i], f.policy, f.cfg)
  {
    hide Serve, Sound;
    assert SafeReplica(f.replicas[i], f.policy, f.cfg);
    hide Safe;
    ServeIsSound(f.replicas[i].cache, hashes, f.cfg.blockBudget);
    Recency.ServeRefines(f.replicas[i].cache, hashes, f.cfg.blockBudget);
  }

  lemma AdmitIsSafe(f: Fleet, hashes: seq<Hash>, i: nat)
    requires Safe(f) && Available(f, i)
    ensures Safe(Admit(f, hashes, i))
  {
    hide SafeReplica, Serve;
    ServedReplicaIsSafe(f, hashes, i);
    Wrap(|f.replicas|, i + 1);
  }

  lemma StepIsSafe(f: Fleet, e: Event)
    requires Safe(f) && InRange(|f.replicas|, e)
    ensures Safe(Step(f, e))
  {
    hide Sound, Routes, Admit;
    if e.Request? {
      PickIsExact(f, e.hashes);
      var o := Pick(f, e.hashes).1;
      if o.Routed? {
        PickRoutesTo(f, e.hashes, o.decision.replica);
        AdmitIsSafe(f, e.hashes, o.decision.replica);
      }
    } else {
      Recency.EmptyList();
      assert SafeReplica(f.replicas[e.replica], f.policy, f.cfg);
    }
  }

  lemma {:induction false} RunIsSafe(f: Fleet, events: seq<Event>)
    requires Safe(f) && AllInRange(|f.replicas|, events)
    ensures Safe(Run(f, events))
    decreases |events|
  {
    hide Safe;
    if |events| > 0 {
      RunIsSafe(f, events[..|events| - 1]);
      StepIsSafe(Run(f, events[..|events| - 1]), events[|events| - 1]);
    }
  }

  // -------- fleets without matches --------

  // Configurations under which no request ever has a match.
  predicate NeverMatches(n: nat, policy: Policy, cfg: Config) {
    n == 0 || policy.RoundRobin? || cfg.blockBudget == 0 || cfg.maxInflight == 0
  }

  lemma PickWithoutMatch(f: Fleet, hashes: seq<Hash>)
    requires Safe(f) && NeverMatches(|f.replicas|, f.policy, f.cfg)
    ensures Pick(f, hashes).1.Routed? ==> Pick(f, hashes).1.decision.matchedBlocks == 0
  {
    hide Routes, Serve, Sound;
    PickIsExact(f, hashes);
    var o := Pick(f, hashes).1;
    if o.Routed? {
      PickRoutesTo(f, hashes, o.decision.replica);
      assert SafeReplica(f.replicas[o.decision.replica], f.policy, f.cfg);
      if f.policy.CacheAware? {
        assert f.replicas[o.decision.replica].cache.stamps == map[];
      }
    }
  }

  // -------- where cached hashes come from --------

  // Hashes of the requests routed to r since it was last lost.
  ghost function RoutedSince(f: Fleet, events: seq<Event>, r: nat): set<Hash>
    requires AllInRange(|f.replicas|, events)
    decreases |events|
  {
    if |events| == 0 then {}
    else
      var front, e := events[..|events| - 1], events[|events| - 1];
      if e == Lost(r) then {}
      else if e.Request? && Pick(Run(f, front), e.hashes).1.Routed?
              && Pick(Run(f, front), e.hashes).1.decision.replica == r
      then RoutedSince(f, front, r) + SetOf(e.hashes)
      else RoutedSince(f, front, r)
  }

  lemma ServeAddsOnly(c: Cache, hashes: seq<Hash>, budget: nat)
    requires Sound(c)
    ensures Serve(c, hashes, budget).stamps.Keys <= c.stamps.Keys + SetOf(hashes)
  {
    hide Serve, Sound, Recency.Order;
    Recency.ServeRefines(c, hashes, budget);
    var served := Recency.Served(Recency.Order(c.stamps), hashes, budget);
    forall h | h in Serve(c, hashes, budget).stamps ensures h in c.stamps.Keys + SetOf(hashes) {
      assert h in served;
      assert h in Recency.Touched(Recency.Order(c.stamps), hashes);
    }
  }

  lemma {:induction false} CachedWasRouted(n: nat, policy: Policy, cfg: Config, events: seq<Event>, r: nat)
    requires AllInRange(n, events) && r < n
    ensures Run(Start(n, policy, cfg), events).replicas[r].cache.stamps.Keys
         <= RoutedSince(Start(n, policy, cfg), events, r)
    decreases |events|
  {
    hide Routes, Sound, Serve;
    var f := Start(n, policy, cfg);
    if |events| > 0 {
      var front, e := events[..|events| - 1], events[|events| - 1];
      var g := Run(f, front);
      CachedWasRouted(n, policy, cfg, front, r);
      StartIsSafe(n, policy, cfg);
      RunIsSafe(f, front);
      assert SafeReplica(g.replicas[r], policy, cfg);
      if e.Request? {
        PickIsExact(g, e.hashes);
        var o := Pick(g, e.hashes).1;
        if o.Routed? {
          PickRoutesTo(g, e.hashes, o.decision.replica);
          ServeAddsOnly(g.replicas[r].cache, e.hashes, cfg.blockBudget);
        }
      }
    }
  }
}

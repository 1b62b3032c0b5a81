// What `Scheduler::pick` and the other scheduler operations mean, as
// functions on the value of the scheduler. The choice is stated by what it
// optimises; the loops that compute it are in Scheduler.dfy.
module Routing {
  import opened LruCache
  import Recency

  datatype Policy = CacheAware | RoundRobin

  datatype Config = Config(alpha: real, beta: real, minMatchBlocks: nat, blockBudget: nat, maxInflight: nat)

  datatype Replica = Replica(cache: Cache, inflight: nat, healthy: bool)

  datatype Fleet = Fleet(replicas: seq<Replica>, policy: Policy, cfg: Config, rrNext: nat)

  datatype PickError = NoHealthyReplicas | AllSaturated

  datatype RouteDecision = RouteDecision(replica: nat, matchedBlocks: nat, inflightAfter: nat)

  datatype Outcome = Routed(decision: RouteDecision) | Refused(error: PickError)

  function Start(n: nat, policy: Policy, cfg: Config): Fleet {
    Fleet(seq(n, _ => Replica(EMPTY, 0, true)), policy, cfg, 0)
  }

  predicate Healthy(f: Fleet, i: nat) {
    i < |f.replicas| && f.replicas[i].healthy
  }

  predicate Available(f: Fleet, i: nat) {
    Healthy(f, i) && f.replicas[i].inflight < f.cfg.maxInflight
  }

  function Inflight(f: Fleet, i: nat): nat
    requires i < |f.replicas|
  {
    f.replicas[i].inflight
  }

  function Hits(f: Fleet, hashes: seq<Hash>, i: nat): nat
    requires i < |f.replicas|
  {
    Lookup(f.replicas[i].cache, hashes)
  }

  function Score(f: Fleet, hashes: seq<Hash>, i: nat): real
    requires i < |f.replicas|
  {
    f.cfg.alpha * Hits(f, hashes, i) as real - f.cfg.beta * Inflight(f, i) as real
  }

  // Among the first n replicas, the first available one of maximal score.
  ghost predicate FirstBest(f: Fleet, hashes: seq<Hash>, n: nat, i: nat) {
    && Available(f, i) && i < n
    && forall j: nat :: j < n && Available(f, j) ==>
         Score(f, hashes, j) <= Score(f, hashes, i) && (j < i ==> Score(f, hashes, j) < Score(f, hashes, i))
  }

  // Among the first n replicas, the first available one of minimal load.
  ghost predicate FirstLeast(f: Fleet, n: nat, i: nat) {
    && Available(f, i) && i < n
    && forall j: nat :: j < n && Available(f, j) ==>
         Inflight(f, i) <= Inflight(f, j) && (j < i ==> Inflight(f, i) < Inflight(f, j))
  }

  // Steps from `start` to `i` going round n replicas.
  function Distance(n: nat, start: nat, i: nat): int {
    if start <= i then i - start else i + n - start
  }

  lemma Wrap(n: nat, x: nat)
    requires x < 2 * n
    ensures x % n == if x < n then x else x - n
  {
    if x >= n {
      assert x == (x - n) + 1 * n;
      assert (x - n) % n == x - n;
    }
  }

  // The off-th candidate of a round-robin scan is off steps away.
  lemma ScanPosition(n: nat, start: nat, off: nat)
    requires start < n && off < n
    ensures (start + off) % n < n
    ensures Distance(n, start, (start + off) % n) == off
  {
    Wrap(n, start + off);
  }

  // The first available replica at or after `rrNext`, going round.
  ghost predicate NextInTurn(f: Fleet, i: nat) {
    && Available(f, i)
    && forall j: nat :: Available(f, j) ==>
         Distance(|f.replicas|, f.rrNext, i) <= Distance(|f.replicas|, f.rrNext, j)
  }

  // Replica i is the one this request goes to.
  ghost predicate Routes(f: Fleet, hashes: seq<Hash>, i: nat) {
    match f.policy
    case RoundRobin => NextInTurn(f, i)
    case CacheAware =>
      exists best: nat ::
        && FirstBest(f, hashes, |f.replicas|, best)
        && if Hits(f, hashes, best) < f.cfg.minMatchBlocks then FirstLeast(f, |f.replicas|, i) else i == best
  }

  ghost function Admit(f: Fleet, hashes: seq<Hash>, i: nat): Fleet
    requires i < |f.replicas|
  {
    var r := f.replicas[i];
    match f.policy
    case RoundRobin =>
      f.(replicas := f.replicas[i := r.(inflight := r.inflight + 1)],
         rrNext := (i + 1) % |f.replicas|)
    case CacheAware =>
      f.(replicas := f.replicas[i := r.(cache := Serve(r.cache, hashes, f.cfg.blockBudget),
                                        inflight := r.inflight + 1)])
  }

  ghost function Decision(f: Fleet, hashes: seq<Hash>, i: nat): RouteDecision
    requires i < |f.replicas|
  {
    RouteDecision(i, if f.policy.RoundRobin? then 0 else Hits(f, hashes, i), Inflight(f, i) + 1)
  }

  // `pick`: the new state and what the caller is told.
  ghost function Pick(f: Fleet, hashes: seq<Hash>): (Fleet, Outcome) {
    if exists i: nat :: Routes(f, hashes, i) then
      var i: nat :| Routes(f, hashes, i);
      (Admit(f, hashes, i), Routed(Decision(f, hashes, i)))
    else if exists i: nat :: Healthy(f, i) then (f, Refused(AllSaturated))
    else (f, Refused(NoHealthyReplicas))
  }

  function Complete(f: Fleet, r: nat): Fleet
    requires r < |f.replicas|
  {
    var s := f.replicas[r];
    f.(replicas := f.replicas[r := s.(inflight := if s.inflight == 0 then 0 else s.inflight - 1)])
  }

  function MarkUnhealthy(f: Fleet, r: nat): Fleet
    requires r < |f.replicas|
  {
    f.(replicas := f.replicas[r := Replica(EMPTY, 0, false)])
  }

  function MarkHealthy(f: Fleet, r: nat): Fleet
    requires r < |f.replicas|
  {
    f.(replicas := f.replicas[r := f.replicas[r].(healthy := true)])
  }

  // -------- the choice is total and exact --------

  predicate WellFormed(f: Fleet) {
    |f.replicas| > 0 ==> f.rrNext < |f.replicas|
  }

  lemma {:induction false} FirstBestExists(f: Fleet, hashes: seq<Hash>, n: nat, i: nat)
    requires Available(f, i) && i < n
    ensures exists best :: FirstBest(f, hashes, n, best)
    decreases n
  {
    if exists j: nat :: j < n - 1 && Available(f, j) {
      var j: nat :| j < n - 1 && Available(f, j);
      FirstBestExists(f, hashes, n - 1, j);
      var best :| FirstBest(f, hashes, n - 1, best);
      assert FirstBest(f, hashes, n, best) ||
             (Available(f, n - 1) && Score(f, hashes, n - 1) > Score(f, hashes, best));
      assert FirstBest(f, hashes, n, best) || FirstBest(f, hashes, n, n - 1);
    } else {
      assert FirstBest(f, hashes, n, i);
    }
  }

  lemma {:induction false} FirstLeastExists(f: Fleet, n: nat, i: nat)
    requires Available(f, i) && i < n
    ensures exists least :: FirstLeast(f, n, least)
    decreases n
  {
    if exists j: nat :: j < n - 1 && Available(f, j) {
      var j: nat :| j < n - 1 && Available(f, j);
      FirstLeastExists(f, n - 1, j);
      var least :| FirstLeast(f, n - 1, least);
      assert FirstLeast(f, n, least) || FirstLeast(f, n, n - 1);
    } else {
      assert FirstLeast(f, n, i);
    }
  }

  lemma {:induction false} NextInTurnExists(f: Fleet, i: nat)
    requires WellFormed(f) && Available(f, i)
    ensures exists next :: NextInTurn(f, next)
    decreases Distance(|f.replicas|, f.rrNext, i)
  {
    if !NextInTurn(f, i) {
      var j: nat :| Available(f, j) && Distance(|f.replicas|, f.rrNext, j) < Distance(|f.replicas|, f.rrNext, i);
      NextInTurnExists(f, j);
    }
  }

  lemma RouteExists(f: Fleet, hashes: seq<Hash>, i: nat)
    requires WellFormed(f) && Available(f, i)
    ensures exists r :: Routes(f, hashes, r)
  {
    match f.policy
    case RoundRobin =>
      NextInTurnExists(f, i);
      var next :| NextInTurn(f, next);
      assert Routes(f, hashes, next);
    case CacheAware =>
      FirstBestExists(f, hashes, |f.replicas|, i);
      var best :| FirstBest(f, hashes, |f.replicas|, best);
      FirstLeastExists(f, |f.replicas|, i);
      var least :| FirstLeast(f, |f.replicas|, least);
      assert Routes(f, hashes, best) || Routes(f, hashes, least);
  }

  lemma RouteIsUnique(f: Fleet, hashes: seq<Hash>, i: nat, j: nat)
    requires WellFormed(f) && Routes(f, hashes, i) && Routes(f, hashes, j)
    ensures i == j
  {
    if f.policy.CacheAware? {
      var best: nat :| FirstBest(f, hashes, |f.replicas|, best) &&
        if Hits(f, hashes, best) < f.cfg.minMatchBlocks then FirstLeast(f, |f.replicas|, i) else i == best;
      var best': nat :| FirstBest(f, hashes, |f.replicas|, best') &&
        if Hits(f, hashes, best') < f.cfg.minMatchBlocks then FirstLeast(f, |f.replicas|, j) else j == best';
      assert best == best';
    }
  }

  // `pick` never fails to decide: it refuses for want of health exactly when
  // no replica is healthy, for saturation exactly when some are healthy and
  // all of those are at the cap, and otherwise routes to an available one.
  lemma PickIsExact(f: Fleet, hashes: seq<Hash>)
    requires WellFormed(f)
    ensures var o := Pick(f, hashes).1;
            && (o == Refused(NoHealthyReplicas) <==> forall i: nat :: !Healthy(f, i))
            && (o == Refused(AllSaturated) <==>
                  (exists i: nat :: Healthy(f, i)) && forall i: nat :: Healthy(f, i) ==> Inflight(f, i) >= f.cfg.maxInflight)
            && (o.Routed? <==> exists i: nat :: Available(f, i))
            && (o.Routed? ==> Available(f, o.decision.replica) && Routes(f, hashes, o.decision.replica))
    ensures Pick(f, hashes).1.Refused? ==> Pick(f, hashes).0 == f
  {
    hide Routes;
    if exists i: nat :: Available(f, i) {
      var i: nat :| Available(f, i);
      RouteExists(f, hashes, i);
    }
    forall i: nat | Routes(f, hashes, i) ensures Available(f, i) {
      RouteIsAvailable(f, hashes, i);
    }
    assert forall i: nat :: Healthy(f, i) ==> (Available(f, i) <==> Inflight(f, i) < f.cfg.maxInflight);
  }

  lemma RouteIsAvailable(f: Fleet, hashes: seq<Hash>, i: nat)
    requires Routes(f, hashes, i)
    ensures Available(f, i)
  {
  }

  lemma PickRefuses(f: Fleet, hashes: seq<Hash>)
    requires WellFormed(f) && forall i: nat :: !Available(f, i)
    ensures Pick(f, hashes) == (f, Refused(if exists i: nat :: Healthy(f, i) then AllSaturated else NoHealthyReplicas))
  {
    hide Routes;
    forall i: nat | Routes(f, hashes, i) ensures Available(f, i) {
      RouteIsAvailable(f, hashes, i);
    }
  }

  // The decision is the one replica that satisfies the routing rule.
  lemma PickRoutesTo(f: Fleet, hashes: seq<Hash>, i: nat)
    requires WellFormed(f) && Routes(f, hashes, i)
    ensures Available(f, i)
    ensures Pick(f, hashes) == (Admit(f, hashes, i), Routed(Decision(f, hashes, i)))
  {
    hide Routes;
    RouteIsAvailable(f, hashes, i);
    forall r: nat | Routes(f, hashes, r) ensures Available(f, r) {
      RouteIsAvailable(f, hashes, r);
    }
    var r: nat :| Routes(f, hashes, r) && Pick(f, hashes) == (Admit(f, hashes, r), Routed(Decision(f, hashes, r)));
    RouteIsUnique(f, hashes, i, r);
  }

  // What a routed pick reports and changes: the chosen replica's own match
  // before the insert, its load after; one request more on it and, under the
  // cache-aware policy, the chain at the front of its recency list, cut to
  // the budget. Every other replica is as before.
  lemma PickChangesOnlyTheChosen(f: Fleet, hashes: seq<Hash>)
    requires WellFormed(f) && forall i :: 0 <= i < |f.replicas| ==> Sound(f.replicas[i].cache)
    ensures var (g, o) := Pick(f, hashes);
            o.Routed? ==>
              var d := o.decision;
              && |g.replicas| == |f.replicas| && Available(f, d.replica)
              && (forall i :: 0 <= i < |f.replicas| && i != d.replica ==> g.replicas[i] == f.replicas[i])
              && d.matchedBlocks == (if f.policy.RoundRobin? then 0 else Hits(f, hashes, d.replica))
              && d.inflightAfter == Inflight(g, d.replica) == Inflight(f, d.replica) + 1
              && g.replicas[d.replica].healthy
              && Recency.Order(g.replicas[d.replica].cache.stamps) ==
                   if f.policy.RoundRobin? then Recency.Order(f.replicas[d.replica].cache.stamps)
                   else Recency.Served(Recency.Order(f.replicas[d.replica].cache.stamps), hashes, f.cfg.blockBudget)
  {
    hide Routes, Sound, Serve, Lookup, Recency.Order, Recency.Served;
    PickIsExact(f, hashes);
    var o := Pick(f, hashes).1;
    if o.Routed? {
      PickRoutesTo(f, hashes, o.decision.replica);
      Recency.ServeRefines(f.replicas[o.decision.replica].cache, hashes, f.cfg.blockBudget);
    }
  }

  ghost predicate OnlyAvailable(f: Fleet, r: nat) {
    Available(f, r) && forall i: nat :: Available(f, i) ==> i == r
  }

  lemma OnlyAvailableIsChosen(f: Fleet, hashes: seq<Hash>, r: nat)
    requires WellFormed(f) && OnlyAvailable(f, r)
    ensures Pick(f, hashes) == (Admit(f, hashes, r), Routed(Decision(f, hashes, r)))
  {
    hide Routes, Serve, Lookup, Available;
    RouteExists(f, hashes, r);
    var i: nat :| Routes(f, hashes, i);
    RouteIsAvailable(f, hashes, i);
    PickRoutesTo(f, hashes, i);
  }
}

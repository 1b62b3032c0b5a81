// crates/router/src/scheduler.rs: the scheduler with its real fields and
// loops, proved against the functions of Routing.dfy.
module Scheduler {
  import opened Routing
  import LruCache
  import PrefixCache

  type Hash = LruCache.Hash

  class ReplicaState {
    var cache: PrefixCache.PrefixCache
    var inflight: nat
    var healthy: bool

    constructor ()
      ensures fresh(cache) && Value() == Replica(LruCache.EMPTY, 0, true)
    {
      cache := new PrefixCache.PrefixCache();
      inflight, healthy := 0, true;
    }

    function Value(): Replica
      reads this, cache
    {
      Replica(cache.State(), inflight, healthy)
    }

    // Books one request; only a cache-aware scheduler keeps the cache.
    method Book(policy: Policy, hashes: seq<Hash>, budget: nat)
      modifies this`inflight, cache
      ensures inflight == old(inflight) + 1
      ensures cache.State() == if policy.CacheAware? then LruCache.Serve(old(cache.State()), hashes, budget)
                               else old(cache.State())
    {
      hide LruCache.Touch, LruCache.EvictTo;
      if policy == CacheAware {
        cache.Insert(hashes);
        ghost var pops := cache.EvictTo(budget);
      }
      inflight := inflight + 1;
    }
  }

  predicate IsMask(f: Fleet, mask: seq<bool>) {
    |mask| == |f.replicas| && forall i: nat :: i < |mask| ==> mask[i] == Available(f, i)
  }

  class Scheduler {
    const replicas: seq<ReplicaState>
    const policy: Policy
    const cfg: Config
    var rrNext: nat

    ghost function Repr(): set<object>
      reads this, replicas
    {
      {this} + (set r: ReplicaState | r in replicas) + (set r: ReplicaState | r in replicas :: r.cache)
    }

    // No two replicas share a state or a cache (the source owns them inline).
    ghost predicate Valid()
      reads this, replicas
    {
      && (forall i, j :: 0 <= i < j < |replicas| ==> replicas[i] != replicas[j])
      && (forall i, j :: 0 <= i < j < |replicas| ==> replicas[i].cache != replicas[j].cache)
      && (|replicas| > 0 ==> rrNext < |replicas|)
    }

    ghost function State(): (f: Fleet)
      reads Repr()
      ensures |f.replicas| == |replicas|
      ensures forall i :: 0 <= i < |replicas| ==> f.replicas[i] == replicas[i].Value()
      ensures f.policy == policy && f.cfg == cfg && f.rrNext == rrNext
    {
      Fleet(Values(0), policy, cfg, rrNext)
    }

    ghost function Values(start: nat): (vs: seq<Replica>)
      requires start <= |replicas|
      reads Repr()
      ensures |vs| == |replicas| - start
      ensures forall i :: 0 <= i < |vs| ==> vs[i] == replicas[start + i].Value()
      decreases |replicas| - start
    {
      if start == |replicas| then [] else [replicas[start].Value()] + Values(start + 1)
    }

    constructor (n: nat, policy: Policy, cfg: Config)
      ensures Valid() && fresh(Repr())
      ensures State() == Start(n, policy, cfg)
    {
      this.policy, this.cfg, rrNext := policy, cfg, 0;
      var rs: seq<ReplicaState> := [];
      for k := 0 to n
        invariant |rs| == k
        invariant forall i :: 0 <= i < k ==> fresh(rs[i]) && fresh(rs[i].cache) && rs[i].Value() == Replica(LruCache.EMPTY, 0, true)
        invariant forall i, j :: 0 <= i < j < k ==> rs[i] != rs[j] && rs[i].cache != rs[j].cache
      {
        var r := new ReplicaState();
        rs := rs + [r];
      }
      replicas := rs;
      new;
      hide State, Values;
      assert State().replicas == Start(n, policy, cfg).replicas;
    }

    // Which replicas may be picked. The steps of `Pick` take the scheduler's
    // value `f` along as a ghost argument.
    method Availability(ghost f: Fleet) returns (mask: seq<bool>, anyAvailable: bool, anyHealthy: bool)
      requires f == State()
      ensures IsMask(f, mask)
      ensures anyAvailable <==> exists i: nat :: Available(f, i)
      ensures anyHealthy <==> exists i: nat :: Healthy(f, i)
    {
      hide State, Values, Repr;
      mask, anyAvailable, anyHealthy := [], false, false;
      for i := 0 to |replicas|
        invariant |mask| == i
        invariant forall j: nat :: j < i ==> mask[j] == Available(f, j)
        invariant anyAvailable <==> exists j: nat :: j < i && Available(f, j)
        invariant anyHealthy <==> exists j: nat :: j < i && Healthy(f, j)
      {
        assert f.replicas[i] == replicas[i].Value();
        if replicas[i].healthy {
          assert Healthy(f, i);
          anyHealthy := true;
        }
        var ok := replicas[i].healthy && replicas[i].inflight < cfg.maxInflight;
        assert ok == Available(f, i);
        anyAvailable := anyAvailable || ok;
        mask := mask + [ok];
      }
    }

    // The round-robin scan; it always lands on an available replica.
    method ScanRoundRobin(ghost f: Fleet, mask: seq<bool>) returns (idx: nat)
      requires f == State() && WellFormed(f) && IsMask(f, mask)
      requires exists i: nat :: Available(f, i)
      ensures NextInTurn(f, idx)
    {
      hide State, Values, Repr;
      ghost var some: nat :| Available(f, some);
      var n := |replicas|;
      var off := 0;
      ScanPosition(n, rrNext, 0);
      idx := (rrNext + off) % n;
      while !mask[idx]
        invariant 0 <= off < n && idx < n && Distance(n, rrNext, idx) == off
        invariant forall j: nat :: Available(f, j) ==> Distance(n, rrNext, j) >= off
        decreases n - off
      {
        assert forall j: nat :: Available(f, j) ==> Distance(n, rrNext, j) > off;
        assert Distance(n, rrNext, some) > off;
        off := off + 1;
        ScanPosition(n, rrNext, off);
        idx := (rrNext + off) % n;
      }
    }

    // The score argmax; the first candidate beats the initial `f64::MIN`,
    // modelled by no score at all.
    method ScanScores(ghost f: Fleet, mask: seq<bool>, hashes: seq<Hash>) returns (best: nat, bestMatched: nat)
      requires f == State() && IsMask(f, mask)
      requires exists i: nat :: Available(f, i)
      ensures FirstBest(f, hashes, |f.replicas|, best)
      ensures bestMatched == Hits(f, hashes, best)
    {
      hide State, Values, Repr;
      var found, bestScore := false, 0.0;
      best, bestMatched := 0, 0;
      for i := 0 to |replicas|
        invariant !found ==> forall j: nat :: j < i ==> !Available(f, j)
        invariant found ==> FirstBest(f, hashes, i, best)
        invariant found ==> bestMatched == Hits(f, hashes, best) && bestScore == Score(f, hashes, best)
      {
        assert f.replicas[i] == replicas[i].Value();
        if mask[i] {
          var matched := replicas[i].cache.Lookup(hashes);
          var score := cfg.alpha * matched as real - cfg.beta * replicas[i].inflight as real;
          assert score == Score(f, hashes, i);
          if !found || score > bestScore {
            found, bestScore, best, bestMatched := true, score, i, matched;
          }
        }
      }
    }

    // `min_by_key` on the load: the first minimum.
    method ScanLeastLoaded(ghost f: Fleet, mask: seq<bool>) returns (least: nat)
      requires f == State() && IsMask(f, mask)
      requires exists i: nat :: Available(f, i)
      ensures FirstLeast(f, |f.replicas|, least)
    {
      hide State, Values, Repr;
      var found := false;
      least := 0;
      for i := 0 to |replicas|
        invariant !found ==> forall j: nat :: j < i ==> !Available(f, j)
        invariant found ==> FirstLeast(f, i, least)
      {
        assert f.replicas[i] == replicas[i].Value();
        if mask[i] {
          assert found ==> f.replicas[least] == replicas[least].Value();
          if !found || replicas[i].inflight < replicas[least].inflight {
            found, least := true, i;
          }
        }
      }
    }

    method Choose(ghost f: Fleet, mask: seq<bool>, hashes: seq<Hash>) returns (idx: nat, matched: nat)
      requires f == State() && WellFormed(f) && IsMask(f, mask)
      requires exists i: nat :: Available(f, i)
      ensures idx < |replicas| && Routes(f, hashes, idx)
      ensures matched == Decision(f, hashes, idx).matchedBlocks
    {
      hide State, Values, Repr;
      match policy
      case RoundRobin =>
        idx := ScanRoundRobin(f, mask);
        matched := 0;
      case CacheAware =>
        var best, bestMatched := ScanScores(f, mask, hashes);
        if bestMatched < cfg.minMatchBlocks {
          idx := ScanLeastLoaded(f, mask);
          assert f.replicas[idx] == replicas[idx].Value();
          matched := replicas[idx].cache.Lookup(hashes);
        } else {
          idx, matched := best, bestMatched;
        }
    }

    // Routes one request, or says why it cannot.
    method Pick(hashes: seq<Hash>) returns (o: Outcome)
      requires Valid()
      modifies Repr()
      ensures Valid() && Repr() == old(Repr())
      ensures State() == Routing.Pick(old(State()), hashes).0
      ensures o == Routing.Pick(old(State()), hashes).1
    {
      hide Routes, Values, State, Available, Healthy, Hits, Routing.Pick, Routing.Admit;
      ghost var f := State();
      var mask, anyAvailable, anyHealthy := Availability(f);
      if !anyAvailable {
        PickRefuses(f, hashes);
        return Refused(if anyHealthy then AllSaturated else NoHealthyReplicas);
      }
      o := Route(f, mask, hashes);
    }

    // Routes one request when some replica is available.
    method Route(ghost f: Fleet, mask: seq<bool>, hashes: seq<Hash>) returns (o: Outcome)
      requires Valid() && f == State() && IsMask(f, mask)
      requires exists i: nat :: Available(f, i)
      modifies Repr()
      ensures Valid() && Repr() == old(Repr())
      ensures State() == Routing.Pick(f, hashes).0
      ensures o == Routing.Pick(f, hashes).1
    {
      hide Routes, Values, State, Available, Healthy, Hits, IsMask, Routing.Pick, Routing.Admit;
      var idx, matched := Choose(f, mask, hashes);
      PickRoutesTo(f, hashes, idx);
      var inflight := Admit(f, hashes, idx, replicas[idx]);
      o := Routed(RouteDecision(idx, matched, inflight));
    }

    // Books the request on the chosen replica.
    method Admit(ghost f: Fleet, hashes: seq<Hash>, idx: nat, r: ReplicaState) returns (inflight: nat)
      requires Valid() && f == State() && idx < |replicas| && r == replicas[idx]
      modifies this`rrNext, r`inflight, r.cache
      ensures Valid()
      ensures State() == Routing.Admit(f, hashes, idx)
      ensures inflight == Decision(f, hashes, idx).inflightAfter
    {
      hide Values, State, LruCache.Serve;
      assert f.replicas[idx] == r.Value();
      r.Book(policy, hashes, cfg.blockBudget);
      OneReplaced(f, idx);
      inflight := r.inflight;
      if policy == RoundRobin {
        rrNext := (idx + 1) % |replicas|;
        OneReplaced(f, idx);
      }
    }

    // Every replica but `idx` still has the value it has in `f`.
    ghost predicate OthersAsIn(f: Fleet, idx: nat)
      reads Repr()
    {
      |f.replicas| == |replicas| && forall i :: 0 <= i < |replicas| && i != idx ==> replicas[i].Value() == f.replicas[i]
    }

    lemma OneReplaced(f: Fleet, idx: nat)
      requires idx < |replicas| && OthersAsIn(f, idx)
      ensures State().replicas == f.replicas[idx := replicas[idx].Value()]
    {
      hide Values;
    }

    method Complete(replica: nat)
      requires Valid() && replica < |replicas|
      modifies replicas[replica]
      ensures Valid() && Repr() == old(Repr())
      ensures State() == Routing.Complete(old(State()), replica)
    {
      hide Values, State;
      ghost var f := State();
      var r := replicas[replica];
      assert f.replicas[replica] == r.Value();
      r.inflight := if r.inflight == 0 then 0 else r.inflight - 1;
      OneReplaced(f, replica);
    }

    method MarkUnhealthy(replica: nat)
      requires Valid() && replica < |replicas|
      modifies replicas[replica]
      ensures Valid() && fresh(Repr() - old(Repr()))
      ensures State() == Routing.MarkUnhealthy(old(State()), replica)
    {
      hide Values, State;
      ghost var f := State();
      var r := replicas[replica];
      r.healthy := false;
      r.inflight := 0;
      r.cache := new PrefixCache.PrefixCache();
      OneReplaced(f, replica);
    }

    method MarkHealthy(replica: nat)
      requires Valid() && replica < |replicas|
      modifies replicas[replica]
      ensures Valid() && Repr() == old(Repr())
      ensures State() == Routing.MarkHealthy(old(State()), replica)
    {
      hide Values, State;
      ghost var f := State();
      var r := replicas[replica];
      assert f.replicas[replica] == r.Value();
      r.healthy := true;
      OneReplaced(f, replica);
    }
  }
}

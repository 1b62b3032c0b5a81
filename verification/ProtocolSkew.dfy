// The load that resets hide: the bound on requests really outstanding is
// reached, and after enough resets by any distance above the cap.
module ProtocolSkew {
  import opened LruCache
  import opened Routing
  import opened Protocol
  import opened ProtocolLaws
  import Retries = ProtocolRetries

  // Replica 0 alone takes requests, and all that is outstanding on it is
  // either counted or was dropped by a reset.
  ghost predicate Stacked(s: System, n: nat, cfg: Config) {
    && |s.fleet.replicas| == |s.dropped| == n && n > 0
    && s.fleet.cfg == cfg
    && s.fleet.replicas[0].healthy && (forall i: nat :: Healthy(s.fleet, i) ==> i == 0)
    && Outstanding(s, 0) == Inflight(s.fleet, 0) + s.dropped[0]
  }

  lemma BootStacked(n: nat, policy: Policy, cfg: Config)
    requires n > 0 && cfg.maxInflight > 0
    ensures var s := Step(Boot(n, policy, cfg), Probe(Retries.OnlyLive(n, 0)));
            Stacked(s, n, cfg) && Inflight(s.fleet, 0) == 0
  {
    hide Step;
    var s0 := Boot(n, policy, cfg);
    Retries.OnlyLiveIsAvailable(s0, n, 0);
    var s := Step(s0, Probe(Retries.OnlyLive(n, 0)));
    assert Inflight(s.fleet, 0) == 0;
    forall i: nat | Healthy(s.fleet, i) ensures i == 0 {
      OnlyLiveIsHealthy(s0, n, i);
    }
    OnlyLiveDropsNothing(s0, n, n);
    assert Retries.OnlyLive(n, 0)[..n] == Retries.OnlyLive(n, 0);
    assert s == ApplyProbe(s0, Retries.OnlyLive(n, 0)) by {
      ProbeIs(s0, Retries.OnlyLive(n, 0));
    }
  }

  lemma ProbeIs(s: System, results: seq<(nat, bool)>)
    requires |s.fleet.replicas| == |s.dropped|
    ensures Step(s, Probe(results)) == ApplyProbe(s, results)
  {
  }

  lemma OnlyLiveIsHealthy(s: System, n: nat, i: nat)
    requires |s.fleet.replicas| == |s.dropped| == n && n > 0
    ensures Healthy(Step(s, Probe(Retries.OnlyLive(n, 0))).fleet, i) ==> i == 0
  {
    Retries.ProbeLeavesOnly(s, n, 0, n);
    assert Retries.OnlyLive(n, 0)[..n] == Retries.OnlyLive(n, 0);
  }

  lemma {:induction false} OnlyLiveDropsNothing(s: System, n: nat, k: nat)
    requires |s.fleet.replicas| == |s.dropped| == n && n > 0 && k <= n
    ensures ApplyProbe(s, Retries.OnlyLive(n, 0)[..k]).dropped[0] == s.dropped[0]
    decreases k
  {
    var results := Retries.OnlyLive(n, 0)[..k];
    if k > 0 {
      assert results[..k - 1] == Retries.OnlyLive(n, 0)[..k - 1];
      OnlyLiveDropsNothing(s, n, k - 1);
      assert results[k - 1] == (k - 1, k - 1 == 0);
    }
  }

  lemma RequestSteps(s: System, hashes: seq<Hash>)
    requires |s.fleet.replicas| == |s.dropped| > 0 && WellFormed(s.fleet) && OnlyAvailable(s.fleet, 0)
    ensures var s1 := Step(s, NewUnary(hashes));
            && |s1.fleet.replicas| == |s1.dropped|
            && Step(s1, Advance(|s.jobs|)) ==
                 System(Admit(s.fleet, hashes, 0),
                        s.jobs + [Job(Unary, hashes, Calling(0, Decision(s.fleet, hashes, 0)), [], [])],
                        s.metrics, s.dropped)
  {
    hide Pick, Admit, Decision, OnlyAvailable, WellFormed;
    OnlyAvailableIsChosen(s.fleet, hashes, 0);
    var j := Job(Unary, hashes, Picking(0), [], []);
    assert (s.jobs + [j])[|s.jobs| := AfterPick(j, Pick(s.fleet, hashes).1)] == s.jobs + [AfterPick(j, Pick(s.fleet, hashes).1)];
  }

  lemma AdmitLoads(f: Fleet, hashes: seq<Hash>)
    requires |f.replicas| > 0
    ensures var g := Admit(f, hashes, 0);
            && |g.replicas| == |f.replicas| && g.cfg == f.cfg
            && Inflight(g, 0) == Inflight(f, 0) + 1
            && forall i: nat :: Healthy(g, i) == Healthy(f, i)
  {
    hide Serve;
  }

  // One more request for replica 0.
  lemma RequestStacks(s: System, n: nat, cfg: Config, hashes: seq<Hash>)
    requires Stacked(s, n, cfg) && WellFormed(s.fleet) && Inflight(s.fleet, 0) < cfg.maxInflight
    ensures var s1 := Step(s, NewUnary(hashes));
            && |s1.fleet.replicas| == |s1.dropped|
            && var s2 := Step(s1, Advance(|s.jobs|));
               && Stacked(s2, n, cfg) && s2.dropped == s.dropped
               && Inflight(s2.fleet, 0) == Inflight(s.fleet, 0) + 1
  {
    hide Step, Admit;
    RequestSteps(s, hashes);
    AdmitLoads(s.fleet, hashes);
    WeighAppend(s.jobs, Job(Unary, hashes, Calling(0, Decision(s.fleet, hashes, 0)), [], []), Holding(0));
  }

  // A probing pass finds replica 0 dead, and the next one finds it live.
  lemma ResetStacks(s: System, n: nat, cfg: Config)
    requires Stacked(s, n, cfg)
    ensures var s1 := Step(s, Probe([(0, false)]));
            && |s1.fleet.replicas| == |s1.dropped|
            && var s2 := Step(s1, Probe([(0, true)]));
               && Stacked(s2, n, cfg) && Inflight(s2.fleet, 0) == 0
               && s2.dropped[0] == s.dropped[0] + Inflight(s.fleet, 0)
  {
    assert [(0, false)][..0] == [] && [(0, true)][..0] == [];
    var s1 := Step(s, Probe([(0, false)]));
    assert s1 == Mark(s, 0);
    var s2 := Step(s1, Probe([(0, true)]));
    assert s2 == s1.(fleet := MarkHealthy(s1.fleet, 0));
    forall i: nat | Healthy(s2.fleet, i) ensures i == 0 {
      assert i != 0 ==> Healthy(s.fleet, i);
    }
  }

  // Requests until replica 0 is at its cap.
  lemma {:induction false} FillUp(n: nat, policy: Policy, cfg: Config, front: seq<Event>, hashes: seq<Hash>)
    returns (events: seq<Event>)
    requires Stacked(Exec(Boot(n, policy, cfg), front), n, cfg)
    requires Inflight(Exec(Boot(n, policy, cfg), front).fleet, 0) <= cfg.maxInflight
    ensures var s, t := Exec(Boot(n, policy, cfg), front), Exec(Boot(n, policy, cfg), events);
            Stacked(t, n, cfg) && Inflight(t.fleet, 0) == cfg.maxInflight && t.dropped == s.dropped
    decreases cfg.maxInflight - Inflight(Exec(Boot(n, policy, cfg), front).fleet, 0)
  {
    hide Step, Stacked;
    var s0 := Boot(n, policy, cfg);
    var s := Exec(s0, front);
    StackedHasFirst(s, n, cfg);
    if Inflight(s.fleet, 0) == cfg.maxInflight {
      events := front;
    } else {
      Retries.ReadyToPick(n, policy, cfg, front);
      RequestStacks(s, n, cfg, hashes);
      var next := Retries.Play(s0, front, NewUnary(hashes));
      next := Retries.Play(s0, next, Advance(|s.jobs|));
      StackedHasFirst(Exec(s0, next), n, cfg);
      events := FillUp(n, policy, cfg, next, hashes);
    }
  }

  lemma StackedHasFirst(s: System, n: nat, cfg: Config)
    requires Stacked(s, n, cfg)
    ensures |s.fleet.replicas| == |s.dropped| == n > 0
    ensures Outstanding(s, 0) == Inflight(s.fleet, 0) + s.dropped[0]
  {
  }

  // The bound on outstanding requests is reached for every fleet that can
  // route, after any number of resets, each of which drops a full load: so
  // nothing bounds what is really outstanding on one replica.
  lemma {:induction false} CapIsOvershot(n: nat, policy: Policy, cfg: Config, hashes: seq<Hash>, resets: nat)
    returns (events: seq<Event>)
    requires n > 0 && cfg.maxInflight > 0
    ensures var s := Exec(Boot(n, policy, cfg), events);
            && Stacked(s, n, cfg)
            && Inflight(s.fleet, 0) == cfg.maxInflight
            && s.dropped[0] == resets * cfg.maxInflight
            && Outstanding(s, 0) == cfg.maxInflight + s.dropped[0]
    decreases resets
  {
    hide Step, Stacked;
    var s0 := Boot(n, policy, cfg);
    if resets == 0 {
      BootStacked(n, policy, cfg);
      var start := Retries.Play(s0, [], Probe(Retries.OnlyLive(n, 0)));
      StackedHasFirst(Exec(s0, start), n, cfg);
      FirstProbeDrops(n, policy, cfg);
      events := FillUp(n, policy, cfg, start, hashes);
    } else {
      var full := CapIsOvershot(n, policy, cfg, hashes, resets - 1);
      ResetStacks(Exec(s0, full), n, cfg);
      var reset := Retries.Play(s0, full, Probe([(0, false)]));
      reset := Retries.Play(s0, reset, Probe([(0, true)]));
      StackedHasFirst(Exec(s0, reset), n, cfg);
      events := FillUp(n, policy, cfg, reset, hashes);
      assert resets * cfg.maxInflight == (resets - 1) * cfg.maxInflight + cfg.maxInflight;
    }
    StackedHasFirst(Exec(s0, events), n, cfg);
  }

  lemma FirstProbeDrops(n: nat, policy: Policy, cfg: Config)
    requires n > 0
    ensures Step(Boot(n, policy, cfg), Probe(Retries.OnlyLive(n, 0))).dropped[0] == 0
  {
    OnlyLiveDropsNothing(Boot(n, policy, cfg), n, n);
    assert Retries.OnlyLive(n, 0)[..n] == Retries.OnlyLive(n, 0);
  }
}

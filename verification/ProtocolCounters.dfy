// When `matched_blocks_total` stays within `prompt_blocks_total`.
module ProtocolCounters {
  import opened LruCache
  import opened Routing
  import opened Protocol
  import opened ProtocolLaws
  import Runs = SchedulerRuns
  import Theorems = ProtocolTheorems
  import Retries = ProtocolRetries
  import CacheLaws
  import Recency

  lemma {:induction false} MatchedWithinPrompt(xs: seq<Sample>)
    requires forall x :: x in xs ==> x.matched <= x.prompt
    ensures SumMatched(xs) <= SumPrompt(xs)
    decreases |xs|
  {
    if |xs| > 0 {
      MatchedWithinPrompt(xs[..|xs| - 1]);
    }
  }

  // Between the increments of matched_blocks_total and prompt_blocks_total.
  predicate MidRecord(j: Job) {
    j.phase.Recording? && j.phase.next == 2
  }

  // The prompt blocks such handlers still owe to the counter.
  ghost function Owed(): Job -> nat {
    (j: Job) => if MidRecord(j) then |j.hashes| else 0
  }

  ghost function PromptAndOwed(): Job -> nat {
    (j: Job) => SumPrompt(Settled(j, 2)) + if MidRecord(j) then |j.hashes| else 0
  }

  lemma {:induction false} WeighSum(jobs: seq<Job>)
    ensures Weigh(jobs, PromptAndOwed()) == Weigh(jobs, PromptOf()) + Weigh(jobs, Owed())
    decreases |jobs|
  {
    if |jobs| > 0 {
      WeighSum(jobs[..|jobs| - 1]);
    }
  }

  lemma MatchedWithinPromptAndOwed(n: nat, j: Job)
    requires CountsOk(n, j)
    ensures MatchedOf()(j) <= PromptAndOwed()(j)
  {
    if j.phase.Recording? {
      var last := |j.served| - 1;
      assert j.served == j.served[..last] + [j.served[last]];
      assert forall x :: x in j.served[..last] ==> x in j.served;
      SumsSnoc(j.served[..last], j.served[last]);
      MatchedWithinPrompt(j.served[..last]);
    }
    MatchedWithinPrompt(j.served);
  }

  // matched_blocks_total stays within prompt_blocks_total and what handlers
  // between the two increments owe; so it is within prompt_blocks_total
  // whenever no handler is between them.
  lemma MatchedIsBounded(n: nat, policy: Policy, cfg: Config, events: seq<Event>)
    ensures var s := Exec(Boot(n, policy, cfg), events);
            && s.metrics.matched <= s.metrics.prompt + Weigh(s.jobs, Owed())
            && ((forall j :: j in s.jobs ==> !MidRecord(j)) ==> s.metrics.matched <= s.metrics.prompt)
  {
    ReachableIsGood(n, policy, cfg, events);
    var s := Exec(Boot(n, policy, cfg), events);
    forall j | j in s.jobs ensures MatchedOf()(j) <= PromptAndOwed()(j) {
      assert JobOk(n, j);
      MatchedWithinPromptAndOwed(n, j);
    }
    WeighBounds(s.jobs, MatchedOf(), PromptAndOwed());
    WeighSum(s.jobs);
    if forall j :: j in s.jobs ==> !MidRecord(j) {
      NoneOwe(s.jobs);
    }
  }

  lemma {:induction false} NoneOwe(jobs: seq<Job>)
    requires forall j :: j in jobs ==> !MidRecord(j)
    ensures Weigh(jobs, Owed()) == 0
    decreases |jobs|
  {
    if |jobs| > 0 {
      NoneOwe(jobs[..|jobs| - 1]);
    }
  }

  // -------- when matched never exceeds prompt --------

  predicate DecidedWithoutMatch(j: Job) {
    match j.phase
    case Calling(_, d) => d.matchedBlocks == 0
    case Completing(_, d, _) => d.matchedBlocks == 0
    case Marking(_, d, _) => d.matchedBlocks == 0
    case Recording(d, _) => d.matchedBlocks == 0
    case _ => true
  }

  ghost predicate NoMatches(s: System) {
    s.metrics.matched == 0 && forall j :: j in s.jobs ==> DecidedWithoutMatch(j)
  }

  lemma MovesWithoutMatch(j: Job, o: Outcome, reply: Reply)
    requires DecidedWithoutMatch(j) && (o.Routed? ==> o.decision.matchedBlocks == 0)
    ensures j.phase.Picking? ==> DecidedWithoutMatch(AfterPick(j, o))
    ensures j.phase.Calling? ==> DecidedWithoutMatch(AfterReply(j, reply))
    ensures j.phase.Completing? ==> DecidedWithoutMatch(AfterComplete(j))
    ensures j.phase.Marking? ==> DecidedWithoutMatch(AfterMark(j))
    ensures j.phase.Recording? ==> DecidedWithoutMatch(AfterRecord(j))
  {
  }

  lemma StepWithoutMatch(s: System, e: Event)
    requires |s.fleet.replicas| == |s.dropped| && NoMatches(s)
    requires Runs.Safe(s.fleet) && Runs.NeverMatches(|s.fleet.replicas|, s.fleet.policy, s.fleet.cfg)
    ensures NoMatches(Step(s, e))
  {
    hide Pick, Runs.Safe, ApplyProbe, AfterPick, AfterReply, AfterComplete, AfterMark, AfterRecord;
    if e.Probe? {
      Retries.ProbeLeavesJobs(s, e.results);
    } else if e.Answered? && e.id < |s.jobs| {
      MovesWithoutMatch(s.jobs[e.id], Refused(AllSaturated), e.reply);
    } else if e.Advance? && e.id < |s.jobs| {
      Runs.PickWithoutMatch(s.fleet, s.jobs[e.id].hashes);
      MovesWithoutMatch(s.jobs[e.id], Pick(s.fleet, s.jobs[e.id].hashes).1, Served);
    }
  }

  lemma {:induction false} NeverAnyMatches(n: nat, policy: Policy, cfg: Config, events: seq<Event>)
    requires Runs.NeverMatches(n, policy, cfg)
    ensures NoMatches(Exec(Boot(n, policy, cfg), events))
    decreases |events|
  {
    hide Step, NoMatches, Runs.Safe;
    if |events| == 0 {
      BootWithoutMatch(n, policy, cfg);
    } else {
      var front := events[..|events| - 1];
      NeverAnyMatches(n, policy, cfg, front);
      Theorems.ReachableIsSafe(n, policy, cfg, front);
      StepWithoutMatch(Exec(Boot(n, policy, cfg), front), events[|events| - 1]);
    }
  }

  lemma BootWithoutMatch(n: nat, policy: Policy, cfg: Config)
    ensures NoMatches(Boot(n, policy, cfg))
  {
  }

  // -------- and when it may --------

  // Only replica 0 takes requests, it is idle, and its picture is `cache`.
  ghost predicate OnlyFirst(f: Fleet, cache: Cache) {
    && f.policy.CacheAware? && f.cfg.blockBudget > 0 && WellFormed(f) && OnlyAvailable(f, 0)
    && f.replicas[0] == Replica(cache, 0, true)
  }

  lemma FirstPicks(f: Fleet, cache: Cache, hashes: seq<Hash>)
    requires OnlyFirst(f, cache)
    ensures |f.replicas| > 0
    ensures Pick(f, hashes) == (Admit(f, hashes, 0), Routed(RouteDecision(0, Lookup(cache, hashes), 1)))
    ensures OnlyFirst(Complete(Admit(f, hashes, 0), 0), Serve(cache, hashes, f.cfg.blockBudget))
  {
    hide Pick, Serve, Lookup;
    OnlyAvailableIsChosen(f, hashes, 0);
    var g := Complete(Admit(f, hashes, 0), 0);
    forall i: nat | Available(g, i) ensures i == 0 {
      assert i != 0 ==> Available(f, i);
    }
  }

  // A new unary request, routed.
  lemma NewRequest(s: System, cache: Cache, hashes: seq<Hash>)
    requires |s.fleet.replicas| == |s.dropped| && OnlyFirst(s.fleet, cache)
    ensures |s.dropped| > 0
    ensures var id := |s.jobs|;
            var s1 := Step(s, NewUnary(hashes));
            |s1.fleet.replicas| == |s1.dropped| &&
            Step(s1, Advance(id)) ==
              System(Admit(s.fleet, hashes, 0),
                     s.jobs + [Job(Unary, hashes, Calling(0, RouteDecision(0, Lookup(cache, hashes), 1)), [], [])],
                     s.metrics, s.dropped)
  {
    hide Pick, Serve, Lookup, Admit, OnlyFirst;
    FirstPicks(s.fleet, cache, hashes);
    var j := Job(Unary, hashes, Picking(0), [], []);
    assert (s.jobs + [j])[|s.jobs| := AfterPick(j, Pick(s.fleet, hashes).1)] == s.jobs + [AfterPick(j, Pick(s.fleet, hashes).1)];
  }

  // Its answer and its `complete`.
  lemma AnswerAndComplete(s: System, id: nat)
    requires |s.fleet.replicas| == |s.dropped| && id < |s.jobs|
    requires s.jobs[id].kind.Unary? && s.jobs[id].phase.Calling? && s.jobs[id].phase.d.replica < |s.dropped|
    ensures var s1 := Step(s, Answered(id, Served));
            |s1.fleet.replicas| == |s1.dropped| &&
            var s2 := Step(s1, Advance(id));
            && |s2.fleet.replicas| == |s2.dropped| == |s.dropped|
            && |s2.jobs| == |s.jobs| && s2.metrics == s.metrics
            && s2.jobs[id].phase == Recording(s.jobs[id].phase.d, 0) && s2.jobs[id].hashes == s.jobs[id].hashes
            && s2.fleet == Complete(s.fleet, s.jobs[id].phase.d.replica)
  {
    var j := s.jobs[id];
    var s1 := Step(s, Answered(id, Served));
    assert s1.jobs[id] == AfterReply(j, Served);
  }

  // Its first two increments.
  lemma RecordTwo(s: System, id: nat)
    requires |s.fleet.replicas| == |s.dropped| && id < |s.jobs|
    requires s.jobs[id].phase.Recording? && s.jobs[id].phase.next == 0
    ensures var s1 := Step(s, Advance(id));
            |s1.fleet.replicas| == |s1.dropped| &&
            Step(s1, Advance(id)).metrics ==
              Metrics(s.metrics.requests + 1, s.metrics.matched + s.jobs[id].phase.d.matchedBlocks, s.metrics.prompt)
  {
    var s1 := Step(s, Advance(id));
    assert s1.jobs[id] == AfterRecord(s.jobs[id]);
  }

  lemma ServedOnce(h: Hash, budget: nat)
    requires budget > 0
    ensures Lookup(Serve(EMPTY, [h], budget), [h]) == 1
  {
    hide Serve, Lookup, Sound;
    Recency.EmptyList();
    CacheLaws.ServedThenFound(EMPTY, [h], budget);
  }

  lemma BootOnlyFirst(n: nat, cfg: Config)
    requires n > 0 && cfg.blockBudget > 0 && cfg.maxInflight > 0
    ensures var s := Step(Boot(n, CacheAware, cfg), Probe(Retries.OnlyLive(n, 0)));
            && |s.fleet.replicas| == |s.dropped| == n && s.jobs == [] && s.metrics == Metrics(0, 0, 0)
            && OnlyFirst(s.fleet, EMPTY) && s.fleet.cfg == cfg
  {
    hide Step, Available;
    Retries.OnlyLiveIsAvailable(Boot(n, CacheAware, cfg), n, 0);
  }

  // One request for h is answered and completed; then a second one is routed,
  // completed and stops between its second and third increment. One request
  // in flight at a time is enough.
  lemma MatchedCanExceedPrompt(n: nat, cfg: Config, h: Hash) returns (events: seq<Event>)
    requires n > 0 && cfg.blockBudget > 0 && cfg.maxInflight > 0
    ensures Exec(Boot(n, CacheAware, cfg), events).metrics == Metrics(1, 1, 0)
  {
    hide Step, OnlyFirst, Serve, Lookup, Admit, Complete;
    var s0 := Boot(n, CacheAware, cfg);
    BootOnlyFirst(n, cfg);
    events := Retries.Play(s0, [], Probe(Retries.OnlyLive(n, 0)));
    NewRequest(Exec(s0, events), EMPTY, [h]);
    FirstPicks(Exec(s0, events).fleet, EMPTY, [h]);
    events := Retries.Play(s0, events, NewUnary([h]));
    events := Retries.Play(s0, events, Advance(0));
    AnswerAndComplete(Exec(s0, events), 0);
    events := Retries.Play(s0, events, Answered(0, Served));
    events := Retries.Play(s0, events, Advance(0));
    var cache := Serve(EMPTY, [h], cfg.blockBudget);
    NewRequest(Exec(s0, events), cache, [h]);
    ServedOnce(h, cfg.blockBudget);
    events := Retries.Play(s0, events, NewUnary([h]));
    events := Retries.Play(s0, events, Advance(1));
    AnswerAndComplete(Exec(s0, events), 1);
    events := Retries.Play(s0, events, Answered(1, Served));
    events := Retries.Play(s0, events, Advance(1));
    RecordTwo(Exec(s0, events), 1);
    events := Retries.Play(s0, events, Advance(1));
    events := Retries.Play(s0, events, Advance(1));
  }

  // Every scrape of every run sees matched_blocks_total within
  // prompt_blocks_total if and only if the configuration never matches.
  lemma MatchedNeverExceedsExactlyWhen(n: nat, policy: Policy, cfg: Config)
    ensures (forall events :: var m := Exec(Boot(n, policy, cfg), events).metrics; m.matched <= m.prompt)
       <==> Runs.NeverMatches(n, policy, cfg)
  {
    if Runs.NeverMatches(n, policy, cfg) {
      forall events ensures var m := Exec(Boot(n, policy, cfg), events).metrics; m.matched <= m.prompt {
        NeverAnyMatches(n, policy, cfg, events);
      }
    } else {
      var events := MatchedCanExceedPrompt(n, cfg, 0);
      assert Exec(Boot(n, policy, cfg), events).metrics.matched > Exec(Boot(n, policy, cfg), events).metrics.prompt;
    }
  }
}

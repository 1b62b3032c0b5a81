// The protocol's promises, for every reachable state over all interleavings.
module ProtocolTheorems {
  import opened Routing
  import opened Protocol
  import opened ProtocolLaws
  import Runs = SchedulerRuns

  // -------- the in-flight ledger --------

  lemma {:induction false} NoneHold(jobs: seq<Job>, r: nat)
    requires forall j :: j in jobs ==> !Holds(j, r)
    ensures Weigh(jobs, Holding(r)) == 0
    decreases |jobs|
  {
    if |jobs| > 0 {
      NoneHold(jobs[..|jobs| - 1], r);
    }
  }

  // Load counts are never above the requests outstanding, never below them
  // by more than the resets dropped, exact without resets, and back to zero
  // once no handler is between its pick and its complete.
  lemma InflightLedger(n: nat, policy: Policy, cfg: Config, events: seq<Event>, r: nat)
    requires r < n
    ensures var s := Exec(Boot(n, policy, cfg), events);
            && Inflight(s.fleet, r) <= Outstanding(s, r) <= Inflight(s.fleet, r) + s.dropped[r]
            && (s.dropped[r] == 0 ==> Inflight(s.fleet, r) == Outstanding(s, r))
            && ((forall j :: j in s.jobs ==> !Holds(j, r)) ==> Inflight(s.fleet, r) == 0)
  {
    ReachableIsGood(n, policy, cfg, events);
    var s := Exec(Boot(n, policy, cfg), events);
    assert Ledger(s, r);
    if forall j :: j in s.jobs ==> !Holds(j, r) {
      NoneHold(s.jobs, r);
    }
  }

  lemma {:induction false} ProbeIsSafe(s: System, results: seq<(nat, bool)>)
    requires |s.fleet.replicas| == |s.dropped| && Runs.Safe(s.fleet)
    ensures Runs.Safe(ApplyProbe(s, results).fleet)
    ensures ApplyProbe(s, results).fleet.cfg == s.fleet.cfg && ApplyProbe(s, results).fleet.policy == s.fleet.policy
    decreases |results|
  {
    hide Runs.Safe;
    if |results| > 0 {
      ProbeIsSafe(s, results[..|results| - 1]);
      var t := ApplyProbe(s, results[..|results| - 1]);
      var i := results[|results| - 1].0;
      if i < |t.dropped| {
        Runs.StepIsSafe(t.fleet, Runs.Lost(i));
        Runs.StepIsSafe(t.fleet, Runs.Readmitted(i));
      }
    }
  }

  lemma StepIsSafe(s: System, e: Event)
    requires |s.fleet.replicas| == |s.dropped| && Runs.Safe(s.fleet)
    ensures Runs.Safe(Step(s, e).fleet)
    ensures Step(s, e).fleet.cfg == s.fleet.cfg && Step(s, e).fleet.policy == s.fleet.policy
  {
    hide Runs.Safe, Pick, AfterPick, AfterReply, AfterComplete, AfterMark, AfterRecord, ApplyProbe;
    if e.Probe? {
      ProbeIsSafe(s, e.results);
    } else if e.Advance? && e.id < |s.jobs| {
      var j := s.jobs[e.id];
      Runs.StepIsSafe(s.fleet, Runs.Request(j.hashes));
      if j.phase.Completing? && j.phase.d.replica < |s.dropped| {
        Runs.StepIsSafe(s.fleet, Runs.Completed(j.phase.d.replica));
      } else if j.phase.Marking? && j.phase.d.replica < |s.dropped| {
        Runs.StepIsSafe(s.fleet, Runs.Lost(j.phase.d.replica));
      }
    }
  }

  lemma {:induction false} ReachableIsSafe(n: nat, policy: Policy, cfg: Config, events: seq<Event>)
    ensures Runs.Safe(Exec(Boot(n, policy, cfg), events).fleet)
    ensures Exec(Boot(n, policy, cfg), events).fleet.cfg == cfg
    ensures Exec(Boot(n, policy, cfg), events).fleet.policy == policy
    decreases |events|
  {
    hide Runs.Safe, Step;
    if |events| == 0 {
      Runs.StartIsSafe(n, policy, cfg);
    } else {
      ReachableIsSafe(n, policy, cfg, events[..|events| - 1]);
      StepIsSafe(Exec(Boot(n, policy, cfg), events[..|events| - 1]), events[|events| - 1]);
    }
  }

  // The cap bounds what is really outstanding, up to what resets dropped.
  lemma OutstandingIsCapped(n: nat, policy: Policy, cfg: Config, events: seq<Event>, r: nat)
    requires r < n
    ensures var s := Exec(Boot(n, policy, cfg), events);
            Outstanding(s, r) <= cfg.maxInflight + s.dropped[r]
  {
    ReachableIsSafe(n, policy, cfg, events);
    InflightLedger(n, policy, cfg, events, r);
    var s := Exec(Boot(n, policy, cfg), events);
    assert Runs.SafeReplica(s.fleet.replicas[r], s.fleet.policy, cfg);
  }

  // -------- retries --------

  // The failures that speak of the connection and not of the request.
  predicate AtTransport(reply: Reply) {
    reply in {Failed(Unavailable), Failed(Unknown), Failed(Internal), Failed(Cancelled)}
  }

  // A unary request makes at most two upstream calls, the second exactly when
  // the first failed at transport and a replica could be picked again; it
  // gives up only when both failed so, and any other answer is that of its
  // last call, or a refused pick.
  lemma UnaryRetriesOnce(n: nat, policy: Policy, cfg: Config, events: seq<Event>, id: nat)
    requires id < |Exec(Boot(n, policy, cfg), events).jobs|
    requires Exec(Boot(n, policy, cfg), events).jobs[id].kind.Unary?
    ensures var j := Exec(Boot(n, policy, cfg), events).jobs[id];
            && |j.calls| <= 2
            && (|j.calls| == 2 ==> AtTransport(j.calls[0].reply))
            && (forall code :: j.phase == Done(GaveUp(code)) ==>
                  |j.calls| == 2 && AtTransport(j.calls[0].reply) && j.calls[1].reply == Failed(code) && AtTransport(Failed(code)))
            && (j.phase == Done(Responded) ==> |j.calls| > 0 && j.calls[|j.calls| - 1].reply == Served)
            && (forall code :: j.phase == Done(Propagated(code)) ==>
                  |j.calls| > 0 && j.calls[|j.calls| - 1].reply == Failed(code) && !AtTransport(Failed(code)))
            && (|j.calls| == 1 && AtTransport(j.calls[0].reply) && j.phase.Done? ==> j.phase.answer.Rejected?)
  {
    ReachableIsGood(n, policy, cfg, events);
    var j := Exec(Boot(n, policy, cfg), events).jobs[id];
    assert JobOk(n, j);
  }
}

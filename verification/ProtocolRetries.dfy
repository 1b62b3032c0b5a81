// Where a retry may go: never back to the failed replica unless the prober
// readmits it in between, and back to it in some run of every fleet.
module ProtocolRetries {
  import opened LruCache
  import opened Routing
  import opened Protocol
  import opened ProtocolLaws
  import Theorems = ProtocolTheorems

  predicate Readmits(e: Event, r: nat) {
    e.Probe? && (r, true) in e.results
  }

  lemma {:induction false} ProbeKeepsOut(s: System, results: seq<(nat, bool)>, r: nat)
    requires |s.fleet.replicas| == |s.dropped| && !Healthy(s.fleet, r) && (r, true) !in results
    ensures !Healthy(ApplyProbe(s, results).fleet, r)
    decreases |results|
  {
    if |results| > 0 {
      var last := results[|results| - 1];
      assert last in results && last == (last.0, last.1);
      ProbeKeepsOut(s, results[..|results| - 1], r);
    }
  }

  lemma StepKeepsOut(s: System, e: Event, r: nat)
    requires |s.fleet.replicas| == |s.dropped| && !Healthy(s.fleet, r) && !Readmits(e, r)
    ensures !Healthy(Step(s, e).fleet, r)
  {
    hide Routes, Serve, AfterPick, AfterReply, AfterComplete, AfterMark, AfterRecord, ApplyProbe;
    if e.Probe? {
      ProbeKeepsOut(s, e.results, r);
    } else if e.Advance? && e.id < |s.jobs| && s.jobs[e.id].phase.Picking? {
      PickEffect(s.fleet, s.jobs[e.id].hashes, r);
    }
  }

  lemma {:induction false} StaysOut(s: System, events: seq<Event>, r: nat)
    requires |s.fleet.replicas| == |s.dropped| && !Healthy(s.fleet, r)
    requires forall e :: e in events ==> !Readmits(e, r)
    ensures !Healthy(Exec(s, events).fleet, r)
    decreases |events|
  {
    hide Step;
    if |events| > 0 {
      StaysOut(s, events[..|events| - 1], r);
      StepKeepsOut(Exec(s, events[..|events| - 1]), events[|events| - 1], r);
    }
  }

  // After a handler has marked replica r, its retry goes to another replica
  // whatever else happens in between, unless the prober readmits r.
  lemma RetryAvoidsMarked(s: System, id: nat, events: seq<Event>)
    requires |s.fleet.replicas| == |s.dropped| && id < |s.jobs|
    requires s.jobs[id].phase.Marking? && s.jobs[id].phase.d.replica < |s.dropped|
    requires forall e :: e in events ==> !Readmits(e, s.jobs[id].phase.d.replica)
    ensures var r := s.jobs[id].phase.d.replica;
            var t := Exec(AdvanceJob(s, id), events);
            forall hashes :: var o := Pick(t.fleet, hashes).1; o.Routed? ==> o.decision.replica != r
  {
    var r := s.jobs[id].phase.d.replica;
    StaysOut(AdvanceJob(s, id), events, r);
    var t := Exec(AdvanceJob(s, id), events);
    forall hashes ensures var o := Pick(t.fleet, hashes).1; o.Routed? ==> o.decision.replica != r {
      PickEffect(t.fleet, hashes, r);
    }
  }

  // -------- a repeated call has a readmission behind it --------

  ghost predicate InRetry(s: System, id: nat) {
    id < |s.jobs| && s.jobs[id].kind.Unary? && s.jobs[id].phase == Picking(1)
  }

  // Event k readmits r while handler id is about to pick for its retry.
  ghost predicate ReadmittedAt(s: System, events: seq<Event>, id: nat, r: nat, k: nat)
    requires |s.fleet.replicas| == |s.dropped|
  {
    k < |events| && Readmits(events[k], r) && InRetry(Exec(s, events[..k]), id)
  }

  predicate Repeats(j: Job, r: nat) {
    |j.calls| == 2 && j.calls[0].replica == r && j.calls[1].replica == r
  }

  // Handler id is on no way to calling r again.
  ghost predicate Avoids(f: Fleet, j: Job, r: nat) {
    && !Repeats(j, r)
    && (j.phase == Picking(1) && |j.calls| == 1 && j.calls[0].replica == r ==> !Healthy(f, r))
    && (j.phase.Calling? && |j.calls| == 1 && j.calls[0].replica == r ==> j.phase.d.replica != r)
  }

  ghost predicate Avoiding(s: System, id: nat, r: nat) {
    id < |s.jobs| && s.jobs[id].kind.Unary? ==> Avoids(s.fleet, s.jobs[id], r)
  }

  lemma AdvanceAvoids(s: System, n: nat, id: nat, r: nat)
    requires |s.fleet.replicas| == |s.dropped| == n && id < |s.jobs|
    requires JobOk(n, s.jobs[id]) && s.jobs[id].kind.Unary? && Avoids(s.fleet, s.jobs[id], r)
    ensures Avoids(AdvanceJob(s, id).fleet, AdvanceJob(s, id).jobs[id], r)
  {
    hide Routes, Serve, Admit;
    PickEffect(s.fleet, s.jobs[id].hashes, r);
  }

  lemma AnswerAvoids(f: Fleet, j: Job, reply: Reply, r: nat)
    requires j.phase.Calling? && j.kind.Unary? && RetryOk(j) && Avoids(f, j, r)
    ensures Avoids(f, AfterReply(j, reply), r)
  {
  }

  lemma StepAvoids(s: System, n: nat, e: Event, id: nat, r: nat)
    requires Sized(s, n) && Avoiding(s, id, r)
    requires !(Readmits(e, r) && InRetry(s, id))
    ensures Avoiding(Step(s, e), id, r)
  {
    hide Routes, Serve, Admit, AfterPick, AfterComplete, AfterMark, AfterRecord, ApplyProbe, CountsOk, RetryOk, Pick;
    if id < |s.jobs| && s.jobs[id].kind.Unary? {
      assert JobOk(n, s.jobs[id]);
      if e == Advance(id) {
        AdvanceAvoids(s, n, id, r);
      } else if e.Answered? && e.id == id && s.jobs[id].phase.Calling? {
        AnswerAvoids(s.fleet, s.jobs[id], e.reply, r);
      } else {
        OthersLeaveAlone(s, n, e, id, r);
      }
    } else {
      NewcomerAvoids(s, e, id, r);
    }
  }

  lemma NewcomerAvoids(s: System, e: Event, id: nat, r: nat)
    requires |s.fleet.replicas| == |s.dropped|
    requires id < |s.jobs| ==> s.jobs[id].kind.Stream?
    ensures Avoiding(Step(s, e), id, r)
  {
    hide Pick, ApplyProbe, Healthy;
    if e.Probe? {
      ProbeLeavesJobs(s, e.results);
    }
  }

  // Other steps leave handler id as it is, and replica r out if it was.
  lemma OthersLeaveAlone(s: System, n: nat, e: Event, id: nat, r: nat)
    requires Sized(s, n) && id < |s.jobs| && s.jobs[id].kind.Unary?
    requires e != Advance(id) && !(e.Answered? && e.id == id && s.jobs[id].phase.Calling?)
    ensures id < |Step(s, e).jobs| && Step(s, e).jobs[id] == s.jobs[id]
    ensures !Healthy(s.fleet, r) && !Readmits(e, r) ==> !Healthy(Step(s, e).fleet, r)
  {
    hide Routes, Serve, AfterPick, AfterReply, AfterComplete, AfterMark, AfterRecord, ApplyProbe, CountsOk, Pick;
    assert JobOk(n, s.jobs[id]);
    if !Healthy(s.fleet, r) && !Readmits(e, r) {
      StepKeepsOut(s, e, r);
    }
    if e.Probe? {
      ProbeLeavesJobs(s, e.results);
    }
  }

  lemma {:induction false} ProbeLeavesJobs(s: System, results: seq<(nat, bool)>)
    requires |s.fleet.replicas| == |s.dropped|
    ensures ApplyProbe(s, results).jobs == s.jobs && ApplyProbe(s, results).metrics == s.metrics
    decreases |results|
  {
    if |results| > 0 {
      ProbeLeavesJobs(s, results[..|results| - 1]);
    }
  }

  lemma {:induction false} AvoidsUntilReadmitted(n: nat, policy: Policy, cfg: Config, events: seq<Event>, id: nat, r: nat)
    ensures var s0 := Boot(n, policy, cfg);
            Avoiding(Exec(s0, events), id, r) || exists k: nat :: ReadmittedAt(s0, events, id, r, k)
    decreases |events|
  {
    hide Step, Avoids, InRetry, Good;
    var s0 := Boot(n, policy, cfg);
    if |events| > 0 {
      var front, e := events[..|events| - 1], events[|events| - 1];
      AvoidsUntilReadmitted(n, policy, cfg, front, id, r);
      if k: nat :| ReadmittedAt(s0, front, id, r, k) {
        assert events[..k] == front[..k];
        assert ReadmittedAt(s0, events, id, r, k);
      } else if Readmits(e, r) && InRetry(Exec(s0, front), id) {
        assert ReadmittedAt(s0, events, id, r, |front|);
      } else {
        ReachableIsGood(n, policy, cfg, front);
        GoodIsSized(Exec(s0, front), n);
        StepAvoids(Exec(s0, front), n, e, id, r);
      }
    }
  }

  // If both calls of a unary request went to the same replica, the prober
  // readmitted it after the first call's mark and before the second pick.
  lemma RepeatNeedsReadmission(n: nat, policy: Policy, cfg: Config, events: seq<Event>, id: nat, r: nat)
    requires var s := Exec(Boot(n, policy, cfg), events);
             id < |s.jobs| && s.jobs[id].kind.Unary? && Repeats(s.jobs[id], r)
    ensures exists k: nat :: ReadmittedAt(Boot(n, policy, cfg), events, id, r, k)
  {
    AvoidsUntilReadmitted(n, policy, cfg, events, id, r);
  }

  // -------- and with one, any fleet may repeat --------

  lemma ExecNext(s: System, front: seq<Event>, e: Event)
    requires |s.fleet.replicas| == |s.dropped|
    ensures Exec(s, []) == s
    ensures Exec(s, front + [e]) == Step(Exec(s, front), e)
  {
    hide Step;
    assert (front + [e])[..|front|] == front;
  }

  // A probing pass that finds replica r live and every other one dead.
  function OnlyLive(n: nat, r: nat): seq<(nat, bool)> {
    seq(n, i => (i, i == r))
  }

  lemma {:induction false} ProbeLeavesOnly(s: System, n: nat, r: nat, k: nat)
    requires |s.fleet.replicas| == |s.dropped| == n && r < n && k <= n
    ensures var t := ApplyProbe(s, OnlyLive(n, r)[..k]);
            && t == System(t.fleet, s.jobs, s.metrics, t.dropped)
            && t.fleet == s.fleet.(replicas := t.fleet.replicas)
            && t.fleet.replicas[r] == (if r < k then s.fleet.replicas[r].(healthy := true) else s.fleet.replicas[r])
            && forall i: nat :: i < k && i != r ==> !Healthy(t.fleet, i)
    decreases k
  {
    var results := OnlyLive(n, r)[..k];
    if k > 0 {
      assert results[..|results| - 1] == OnlyLive(n, r)[..k - 1];
      ProbeLeavesOnly(s, n, r, k - 1);
      assert results[k - 1] == (k - 1, k - 1 == r);
      var t, u := ApplyProbe(s, results[..k - 1]), ApplyProbe(s, results);
      forall i: nat | i < k && i != r ensures !Healthy(u.fleet, i) {
        assert i < k - 1 ==> !Healthy(t.fleet, i);
      }
    }
  }

  lemma OnlyLiveIsAvailable(s: System, n: nat, r: nat)
    requires |s.fleet.replicas| == |s.dropped| == n && r < n && Inflight(s.fleet, r) < s.fleet.cfg.maxInflight
    ensures var t := Step(s, Probe(OnlyLive(n, r)));
            && t == System(t.fleet, s.jobs, s.metrics, t.dropped)
            && t.fleet == s.fleet.(replicas := t.fleet.replicas)
            && |t.fleet.replicas| == |t.dropped| == n
            && t.fleet.replicas[r] == s.fleet.replicas[r].(healthy := true)
            && OnlyAvailable(t.fleet, r)
  {
    ProbeLeavesOnly(s, n, r, n);
    assert OnlyLive(n, r)[..n] == OnlyLive(n, r);
  }

  // A lone handler whose call to r failed at transport, up to its retry.
  lemma FailedCall(s: System, j: Job, r: nat)
    requires |s.fleet.replicas| == |s.dropped| && r < |s.dropped| && s.jobs == [j]
    requires j.kind.Unary? && j.phase.Calling? && j.phase.attempt == 0 && j.phase.d.replica == r
    ensures var s1 := Step(s, Answered(0, Failed(Unavailable)));
            |s1.fleet.replicas| == |s1.dropped| &&
            var s2 := Step(s1, Advance(0));
            |s2.fleet.replicas| == |s2.dropped| &&
            var s3 := Step(s2, Advance(0));
            && |s3.fleet.replicas| == |s3.dropped| == |s.dropped|
            && s3.jobs == [j.(phase := Picking(1), calls := j.calls + [Call(r, Failed(Unavailable))])]
            && Inflight(s3.fleet, r) == 0 && s3.fleet.cfg == s.fleet.cfg
  {
    var s1 := Step(s, Answered(0, Failed(Unavailable)));
    assert s1.jobs == [AfterReply(j, Failed(Unavailable))];
    var s2 := Step(s1, Advance(0));
    assert s2.jobs == [AfterComplete(s1.jobs[0])];
    var s3 := Step(s2, Advance(0));
    assert s3.jobs == [AfterMark(s2.jobs[0])];
  }

  lemma LonePick(s: System, j: Job)
    requires |s.fleet.replicas| == |s.dropped| && s.jobs == [j] && WellFormed(s.fleet)
    requires j.kind.Unary? && j.phase.Picking? && exists i: nat :: Available(s.fleet, i)
    ensures var t := Step(s, Advance(0));
            && |t.fleet.replicas| == |t.dropped| == |s.dropped| && t.fleet.cfg == s.fleet.cfg
            && |t.jobs| == 1 && t.jobs[0].phase.Calling?
            && t.jobs[0] == j.(phase := Calling(j.phase.attempt, t.jobs[0].phase.d))
            && Available(s.fleet, t.jobs[0].phase.d.replica)
  {
    hide Routes, Serve, Available;
    PickIsExact(s.fleet, j.hashes);
    StepKeepsSize(s, Advance(0));
  }

  // For every fleet that can route at all there is a run in which a unary
  // request's retry goes back to the replica that has just failed it: a
  // probing pass readmits that replica and finds the others dead.
  lemma RetryMayRepeat(n: nat, policy: Policy, cfg: Config, hashes: seq<Hash>) returns (events: seq<Event>, r: nat)
    requires n > 0 && cfg.maxInflight > 0
    ensures var s := Exec(Boot(n, policy, cfg), events);
            |s.jobs| == 1 && s.jobs[0].kind.Unary? && Repeats(s.jobs[0], r)
  {
    hide Step, Available;
    var s0 := Boot(n, policy, cfg);
    var j := Job(Unary, hashes, Picking(0), [], []);
    events := [];
    events := Play(s0, events, NewUnary(hashes));
    BootedWithJob(n, policy, cfg, hashes);
    ReadyToPick(n, policy, cfg, events);
    LonePick(Exec(s0, events), j);
    events := Play(s0, events, Advance(0));
    var called := Exec(s0, events).jobs[0];
    r := called.phase.d.replica;
    RouteIsOnFleet(n, policy, cfg, r);
    FailedCall(Exec(s0, events), called, r);
    events := Play(s0, events, Answered(0, Failed(Unavailable)));
    events := Play(s0, events, Advance(0));
    events := Play(s0, events, Advance(0));
    OnlyLiveIsAvailable(Exec(s0, events), n, r);
    events := Play(s0, events, Probe(OnlyLive(n, r)));
    ReadyToPick(n, policy, cfg, events);
    LonePick(Exec(s0, events), Exec(s0, events).jobs[0]);
    events := Play(s0, events, Advance(0));
    LoneAnswer(Exec(s0, events), Exec(s0, events).jobs[0]);
    events := Play(s0, events, Answered(0, Served));
  }

  // One more event at the end of a run.
  lemma Play(s: System, front: seq<Event>, e: Event) returns (events: seq<Event>)
    requires |s.fleet.replicas| == |s.dropped|
    ensures events == front + [e]
    ensures Exec(s, events) == Step(Exec(s, front), e)
    ensures Exec(s, []) == s
  {
    events := front + [e];
    ExecNext(s, front, e);
  }

  lemma BootedWithJob(n: nat, policy: Policy, cfg: Config, hashes: seq<Hash>)
    requires n > 0 && cfg.maxInflight > 0
    ensures var s := Step(Boot(n, policy, cfg), NewUnary(hashes));
            && s.jobs == [Job(Unary, hashes, Picking(0), [], [])] && s.fleet == Start(n, policy, cfg)
            && Available(s.fleet, 0)
  {
  }

  lemma RouteIsOnFleet(n: nat, policy: Policy, cfg: Config, r: nat)
    requires Available(Start(n, policy, cfg), r)
    ensures r < n
  {
  }

  lemma ReadyToPick(n: nat, policy: Policy, cfg: Config, events: seq<Event>)
    ensures WellFormed(Exec(Boot(n, policy, cfg), events).fleet)
    ensures Exec(Boot(n, policy, cfg), events).fleet.cfg == cfg
  {
    Theorems.ReachableIsSafe(n, policy, cfg, events);
  }

  lemma LoneAnswer(s: System, j: Job)
    requires |s.fleet.replicas| == |s.dropped| && s.jobs == [j] && j.phase.Calling? && j.kind.Unary?
    ensures |Step(s, Answered(0, Served)).jobs| == 1
    ensures Step(s, Answered(0, Served)).jobs[0] == AfterReply(j, Served)
  {
  }
}

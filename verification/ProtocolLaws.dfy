// What every interleaving of handlers and prober keeps: the in-flight
// ledger, the retry discipline and the request counters.
module ProtocolLaws {
  import opened LruCache
  import opened Routing
  import opened Protocol

  ghost function Exec(s: System, events: seq<Event>): (s': System)
    requires |s.fleet.replicas| == |s.dropped|
    ensures |s'.fleet.replicas| == |s'.dropped| == |s.dropped|
    decreases |events|
  {
    if |events| == 0 then s
    else
      var t := Exec(s, events[..|events| - 1]);
      StepKeepsSize(t, events[|events| - 1]);
      Step(t, events[|events| - 1])
  }

  lemma StepKeepsSize(s: System, e: Event)
    requires |s.fleet.replicas| == |s.dropped|
    ensures |Step(s, e).fleet.replicas| == |Step(s, e).dropped| == |s.dropped|
  {
    hide Routes, Admit, AfterPick, AfterReply, AfterComplete, AfterMark, AfterRecord, ApplyProbe;
    if e.Advance? && e.id < |s.jobs| && s.jobs[e.id].phase.Picking? {
      PickEffect(s.fleet, s.jobs[e.id].hashes, 0);
    }
  }

  // What a pick does to the load of replica r, and what it hands out.
  lemma PickEffect(f: Fleet, hashes: seq<Hash>, r: nat)
    ensures var (g, o) := Pick(f, hashes);
            && |g.replicas| == |f.replicas|
            && (o.Refused? ==> g == f)
            && (o.Routed? ==> Available(f, o.decision.replica) && o.decision.matchedBlocks <= |hashes|)
            && (o.Routed? && r < |f.replicas| ==>
                  Inflight(g, r) == Inflight(f, r) + if r == o.decision.replica then 1 else 0)
  {
    hide Routes, Serve;
    forall i: nat | Routes(f, hashes, i) ensures Available(f, i) {
      RouteIsAvailable(f, hashes, i);
    }
  }

  // -------- the retry discipline --------

  ghost predicate FirstFailed(calls: seq<Call>) {
    |calls| > 0 && TransportFailed(calls[0].reply)
  }

  // The calls a unary handler has made, phase by phase.
  ghost predicate RetryOk(j: Job) {
    match j.phase
    case Idle => false
    case Picking(a) => a <= 1 && |j.calls| == a && (a == 1 ==> FirstFailed(j.calls))
    case Calling(a, _) => a <= 1 && |j.calls| == a && (a == 1 ==> FirstFailed(j.calls))
    case Completing(a, d, reply) =>
      a <= 1 && |j.calls| == a + 1 && j.calls[a] == Call(d.replica, reply) && (a == 1 ==> FirstFailed(j.calls))
    case Marking(a, d, reply) =>
      a <= 1 && |j.calls| == a + 1 && j.calls[a] == Call(d.replica, reply) && FirstFailed(j.calls) && TransportFailed(reply)
    case Recording(_, _) => EndedWith(j.calls, Served)
    case Done(Responded) => EndedWith(j.calls, Served)
    case Done(Rejected(_)) => |j.calls| == 0 || (|j.calls| == 1 && FirstFailed(j.calls))
    case Done(Propagated(code)) => !IsTransportFailure(code) && EndedWith(j.calls, Failed(code))
    case Done(GaveUp(code)) =>
      |j.calls| == 2 && FirstFailed(j.calls) && j.calls[1].reply == Failed(code) && IsTransportFailure(code)
    case Done(Closed) => false
  }

  ghost predicate EndedWith(calls: seq<Call>, reply: Reply) {
    1 <= |calls| <= 2 && calls[|calls| - 1].reply == reply && (|calls| == 2 ==> FirstFailed(calls))
  }

  // -------- what a handler holds --------

  ghost predicate DecisionOk(n: nat, j: Job, d: RouteDecision) {
    d.replica < n && d.matchedBlocks <= |j.hashes|
  }

  ghost predicate CountsOk(n: nat, j: Job) {
    && (forall x :: x in j.served ==> x.matched <= x.prompt)
    && (match j.phase
        case Calling(_, d) => DecisionOk(n, j, d)
        case Completing(_, d, _) => DecisionOk(n, j, d)
        case Marking(_, d, _) => DecisionOk(n, j, d)
        case Recording(d, next) =>
          DecisionOk(n, j, d) && next <= 2 && |j.served| > 0 && j.served[|j.served| - 1] == Sample(d.matchedBlocks, |j.hashes|)
        case _ => true)
    && (j.kind.Unary? ==> |j.served| == if j.phase.Recording? || j.phase == Done(Responded) then 1 else 0)
  }

  ghost predicate JobOk(n: nat, j: Job) {
    (j.kind.Unary? ==> RetryOk(j)) && CountsOk(n, j)
  }

  // Between `pick` and `complete` on r.
  predicate Holds(j: Job, r: nat) {
    match j.phase
    case Calling(_, d) => d.replica == r
    case Completing(_, d, _) => d.replica == r
    case Marking(_, d, _) => j.kind.Stream? && d.replica == r
    case Recording(d, _) => j.kind.Stream? && d.replica == r
    case _ => false
  }

  ghost function Holding(r: nat): Job -> nat {
    j => if Holds(j, r) then 1 else 0
  }

  ghost function Outstanding(s: System, r: nat): nat {
    Weigh(s.jobs, Holding(r))
  }

  // Counted load never exceeds the requests really outstanding, and falls
  // short of them by at most what resets have dropped.
  ghost predicate Ledger(s: System, r: nat)
    requires r < |s.fleet.replicas| == |s.dropped|
  {
    Inflight(s.fleet, r) <= Outstanding(s, r) <= Inflight(s.fleet, r) + s.dropped[r]
  }

  // -------- counters --------

  // The samples that have been added to counter k.
  ghost function Settled(j: Job, k: nat): seq<Sample> {
    if j.phase.Recording? && j.phase.next <= k && |j.served| > 0 then j.served[..|j.served| - 1] else j.served
  }

  ghost function SumMatched(xs: seq<Sample>): nat {
    if |xs| == 0 then 0 else SumMatched(xs[..|xs| - 1]) + xs[|xs| - 1].matched
  }

  ghost function SumPrompt(xs: seq<Sample>): nat {
    if |xs| == 0 then 0 else SumPrompt(xs[..|xs| - 1]) + xs[|xs| - 1].prompt
  }

  ghost function RequestsOf(): Job -> nat {
    j => |Settled(j, 0)|
  }

  ghost function MatchedOf(): Job -> nat {
    j => SumMatched(Settled(j, 1))
  }

  ghost function PromptOf(): Job -> nat {
    j => SumPrompt(Settled(j, 2))
  }

  // Every counter is the sum of what the handlers have added to it.
  ghost predicate Counted(s: System) {
    && s.metrics.requests == Weigh(s.jobs, RequestsOf())
    && s.metrics.matched == Weigh(s.jobs, MatchedOf())
    && s.metrics.prompt == Weigh(s.jobs, PromptOf())
  }

  ghost predicate Good(s: System, n: nat) {
    && |s.fleet.replicas| == |s.dropped| == n
    && (forall j :: j in s.jobs ==> JobOk(n, j))
    && (forall r: nat :: r < n ==> Ledger(s, r))
    && Counted(s)
  }

  // -------- each job transition keeps JobOk --------

  lemma PickRetryOk(j: Job, o: Outcome)
    requires j.phase.Picking? && j.kind.Unary? && RetryOk(j)
    ensures RetryOk(AfterPick(j, o))
  {
  }

  lemma PickCountsOk(n: nat, j: Job, o: Outcome)
    requires j.phase.Picking? && CountsOk(n, j)
    requires o.Routed? ==> DecisionOk(n, j, o.decision)
    ensures CountsOk(n, AfterPick(j, o))
  {
  }

  lemma PickJobOk(f: Fleet, j: Job)
    requires j.phase.Picking? && JobOk(|f.replicas|, j)
    ensures JobOk(|f.replicas|, AfterPick(j, Pick(f, j.hashes).1))
  {
    hide RetryOk, CountsOk, Pick;
    PickEffect(f, j.hashes, 0);
    PickCountsOk(|f.replicas|, j, Pick(f, j.hashes).1);
    if j.kind.Unary? {
      PickRetryOk(j, Pick(f, j.hashes).1);
    }
  }

  lemma OtherRetryOk(j: Job, reply: Reply)
    requires j.kind.Unary? && RetryOk(j)
    ensures j.phase.Calling? ==> RetryOk(AfterReply(j, reply))
    ensures j.phase.Completing? ==> RetryOk(AfterComplete(j))
    ensures j.phase.Marking? ==> RetryOk(AfterMark(j))
    ensures j.phase.Recording? ==> RetryOk(AfterRecord(j))
  {
  }

  lemma ReplyAndMarkCountsOk(n: nat, j: Job, reply: Reply)
    requires CountsOk(n, j)
    requires j.kind.Unary? ==> RetryOk(j)
    ensures j.phase.Calling? ==> CountsOk(n, AfterReply(j, reply))
    ensures j.phase.Marking? ==> CountsOk(n, AfterMark(j))
  {
  }

  lemma CompleteAndRecordCountsOk(n: nat, j: Job)
    requires CountsOk(n, j)
    ensures j.phase.Completing? ==> CountsOk(n, AfterComplete(j))
    ensures j.phase.Recording? ==> CountsOk(n, AfterRecord(j))
  {
  }

  lemma OtherJobsOk(n: nat, j: Job, reply: Reply)
    requires JobOk(n, j)
    ensures j.phase.Calling? ==> JobOk(n, AfterReply(j, reply))
    ensures j.phase.Completing? ==> JobOk(n, AfterComplete(j))
    ensures j.phase.Marking? ==> JobOk(n, AfterMark(j))
    ensures j.phase.Recording? ==> JobOk(n, AfterRecord(j))
  {
    hide RetryOk, CountsOk;
    if j.kind.Unary? {
      OtherRetryOk(j, reply);
    }
    ReplyAndMarkCountsOk(n, j, reply);
    CompleteAndRecordCountsOk(n, j);
  }

  // -------- each job transition moves the counters alike --------

  lemma SumsSnoc(xs: seq<Sample>, x: Sample)
    ensures SumMatched(xs + [x]) == SumMatched(xs) + x.matched
    ensures SumPrompt(xs + [x]) == SumPrompt(xs) + x.prompt
  {
    assert (xs + [x])[..|xs|] == xs;
  }

  ghost predicate SameCounts(j: Job, k: Job) {
    forall c: nat :: c <= 2 ==> Settled(j, c) == Settled(k, c)
  }

  lemma UncountedMoves(n: nat, j: Job, o: Outcome, reply: Reply)
    requires JobOk(n, j)
    ensures j.phase.Picking? ==> SameCounts(j, AfterPick(j, o))
    ensures j.phase.Calling? ==> SameCounts(j, AfterReply(j, reply))
    ensures j.phase.Completing? ==> SameCounts(j, AfterComplete(j))
    ensures j.phase.Marking? ==> SameCounts(j, AfterMark(j))
  {
    hide RetryOk;
  }

  lemma LastSettled(j: Job, x: Sample)
    requires |j.served| > 0 && j.served[|j.served| - 1] == x
    ensures |j.served| == |j.served[..|j.served| - 1]| + 1
    ensures SumMatched(j.served) == SumMatched(j.served[..|j.served| - 1]) + x.matched
    ensures SumPrompt(j.served) == SumPrompt(j.served[..|j.served| - 1]) + x.prompt
  {
  }

  lemma RecordMoves(j: Job, m: Metrics)
    requires j.phase.Recording? && j.phase.next <= 2
    requires |j.served| > 0 && j.served[|j.served| - 1] == Sample(j.phase.d.matchedBlocks, |j.hashes|)
    ensures var k := AfterRecord(j);
            && Bump(m, j).requests == m.requests + |Settled(k, 0)| - |Settled(j, 0)|
            && Bump(m, j).matched == m.matched + SumMatched(Settled(k, 1)) - SumMatched(Settled(j, 1))
            && Bump(m, j).prompt == m.prompt + SumPrompt(Settled(k, 2)) - SumPrompt(Settled(j, 2))
  {
    hide SumMatched, SumPrompt;
    LastSettled(j, Sample(j.phase.d.matchedBlocks, |j.hashes|));
  }

  lemma CountedAfterUpdate(s: System, t: System, id: nat, k: Job)
    requires Counted(s) && id < |s.jobs| && t.jobs == s.jobs[id := k]
    requires t.metrics.requests == s.metrics.requests + |Settled(k, 0)| - |Settled(s.jobs[id], 0)|
    requires t.metrics.matched == s.metrics.matched + SumMatched(Settled(k, 1)) - SumMatched(Settled(s.jobs[id], 1))
    requires t.metrics.prompt == s.metrics.prompt + SumPrompt(Settled(k, 2)) - SumPrompt(Settled(s.jobs[id], 2))
    ensures Counted(t)
  {
    hide Settled, SumMatched, SumPrompt;
    WeighUpdate(s.jobs, id, k, RequestsOf());
    WeighUpdate(s.jobs, id, k, MatchedOf());
    WeighUpdate(s.jobs, id, k, PromptOf());
  }

  // -------- the ledger, step by step --------

  lemma LedgerAfterUpdate(s: System, t: System, id: nat, k: Job, r: nat)
    requires |s.fleet.replicas| == |s.dropped| == |t.fleet.replicas| == |t.dropped| && r < |s.dropped|
    requires Ledger(s, r) && id < |s.jobs| && t.jobs == s.jobs[id := k]
    requires var j := s.jobs[id];
             || (Holds(k, r) == Holds(j, r) && Inflight(t.fleet, r) == Inflight(s.fleet, r) && t.dropped[r] == s.dropped[r])
             || (Holds(k, r) == Holds(j, r) && Inflight(t.fleet, r) == 0 && t.dropped[r] == s.dropped[r] + Inflight(s.fleet, r))
             || (Holds(k, r) && !Holds(j, r) && Inflight(t.fleet, r) == Inflight(s.fleet, r) + 1 && t.dropped[r] == s.dropped[r])
             || (!Holds(k, r) && Holds(j, r) && t.dropped[r] == s.dropped[r] &&
                   Inflight(t.fleet, r) == if Inflight(s.fleet, r) == 0 then 0 else Inflight(s.fleet, r) - 1)
    ensures Ledger(t, r)
  {
    WeighUpdate(s.jobs, id, k, Holding(r));
    hide Holds;
  }

  lemma AdvanceKeepsLedger(s: System, n: nat, id: nat, r: nat)
    requires |s.fleet.replicas| == |s.dropped| == n && r < n && id < |s.jobs|
    requires JobOk(n, s.jobs[id]) && Ledger(s, r)
    ensures var t := AdvanceJob(s, id);
            |t.fleet.replicas| == |t.dropped| == n && Ledger(t, r)
  {
    hide RetryOk, Ledger, Admit, Routes;
    var j, t := s.jobs[id], AdvanceJob(s, id);
    match j.phase
    case Picking(_) =>
      PickEffect(s.fleet, j.hashes, r);
      LedgerAfterUpdate(s, t, id, AfterPick(j, Pick(s.fleet, j.hashes).1), r);
    case Completing(_, d, _) =>
      LedgerAfterUpdate(s, t, id, AfterComplete(j), r);
    case Marking(_, d, _) =>
      LedgerAfterUpdate(s, t, id, AfterMark(j), r);
    case Recording(_, _) =>
      LedgerAfterUpdate(s, t, id, AfterRecord(j), r);
    case _ =>
  }

  lemma AdvanceKeepsCounts(s: System, n: nat, id: nat)
    requires |s.fleet.replicas| == |s.dropped| == n && id < |s.jobs|
    requires JobOk(n, s.jobs[id]) && Counted(s)
    ensures Counted(AdvanceJob(s, id))
  {
    hide RetryOk, Counted, Pick, SumMatched, SumPrompt;
    var j, t := s.jobs[id], AdvanceJob(s, id);
    if j.phase.Picking? || j.phase.Completing? || j.phase.Marking? {
      UncountedMoves(n, j, Pick(s.fleet, j.hashes).1, Served);
      assert SameCounts(j, t.jobs[id]);
      CountedAfterUpdate(s, t, id, t.jobs[id]);
    } else if j.phase.Recording? {
      RecordMoves(j, s.metrics);
      CountedAfterUpdate(s, t, id, AfterRecord(j));
    }
  }

  lemma AdvanceKeepsJobs(s: System, n: nat, id: nat)
    requires |s.fleet.replicas| == |s.dropped| == n && id < |s.jobs|
    requires forall j :: j in s.jobs ==> JobOk(n, j)
    ensures forall j :: j in AdvanceJob(s, id).jobs ==> JobOk(n, j)
  {
    hide JobOk, Pick, AfterPick, AfterComplete, AfterMark, AfterRecord;
    var j := s.jobs[id];
    OtherJobsOk(n, j, Served);
    if j.phase.Picking? {
      PickJobOk(s.fleet, j);
    }
  }

  lemma AdvanceKeepsGood(s: System, n: nat, id: nat)
    requires Good(s, n) && id < |s.jobs|
    ensures Good(AdvanceJob(s, id), n)
  {
    hide AdvanceJob, JobOk, Ledger, Counted;
    StepKeepsSize(s, Advance(id));
    AdvanceKeepsJobs(s, n, id);
    AdvanceKeepsCounts(s, n, id);
    forall r: nat | r < n ensures |AdvanceJob(s, id).fleet.replicas| == |AdvanceJob(s, id).dropped| == n && Ledger(AdvanceJob(s, id), r) {
      AdvanceKeepsLedger(s, n, id, r);
    }
    assert AdvanceJob(s, id) == Step(s, Advance(id));
  }

  // A probing pass leaves the handlers alone and keeps the ledger: what a
  // reset takes off the load it adds to the dropped count.
  lemma {:induction false} ProbeKeepsGood(s: System, n: nat, results: seq<(nat, bool)>)
    requires Good(s, n)
    ensures Good(ApplyProbe(s, results), n)
    ensures ApplyProbe(s, results).jobs == s.jobs && ApplyProbe(s, results).metrics == s.metrics
    decreases |results|
  {
    hide JobOk;
    if |results| > 0 {
      ProbeKeepsGood(s, n, results[..|results| - 1]);
      var t, u := ApplyProbe(s, results[..|results| - 1]), ApplyProbe(s, results);
      forall r: nat | r < n ensures Ledger(u, r) {
        assert Ledger(t, r);
      }
    }
  }

  lemma UpdateKeepsGood(s: System, n: nat, id: nat, k: Job)
    requires Good(s, n) && id < |s.jobs| && JobOk(n, k) && SameCounts(s.jobs[id], k)
    requires forall r: nat :: Holds(k, r) == Holds(s.jobs[id], r)
    ensures Good(s.(jobs := s.jobs[id := k]), n)
  {
    hide JobOk, Holds, SumMatched, SumPrompt;
    var t := s.(jobs := s.jobs[id := k]);
    assert Settled(s.jobs[id], 0) == Settled(k, 0) && Settled(s.jobs[id], 1) == Settled(k, 1) && Settled(s.jobs[id], 2) == Settled(k, 2);
    CountedAfterUpdate(s, t, id, k);
    forall r: nat | r < n ensures Ledger(t, r) {
      assert Ledger(s, r);
      LedgerAfterUpdate(s, t, id, k, r);
    }
  }

  lemma NewJobKeepsGood(s: System, n: nat, k: Job)
    requires Good(s, n) && JobOk(n, k) && k.served == [] && forall r: nat :: !Holds(k, r)
    ensures Good(s.(jobs := s.jobs + [k]), n)
  {
    hide JobOk, Holds;
    var t := s.(jobs := s.jobs + [k]);
    WeighAppend(s.jobs, k, RequestsOf());
    WeighAppend(s.jobs, k, MatchedOf());
    WeighAppend(s.jobs, k, PromptOf());
    forall r: nat | r < n ensures Ledger(t, r) {
      assert Ledger(s, r);
      WeighAppend(s.jobs, k, Holding(r));
    }
  }

  lemma StepKeepsGood(s: System, n: nat, e: Event)
    requires Good(s, n)
    ensures Good(Step(s, e), n)
  {
    hide Good, AdvanceJob, ApplyProbe;
    assert Sized(s, n) by {
      GoodIsSized(s, n);
    }
    match e
    case NewUnary(hashes) =>
      NewJobKeepsGood(s, n, Job(Unary, hashes, Picking(0), [], []));
    case NewStream =>
      NewJobKeepsGood(s, n, Job(Stream, [], Idle, [], []));
    case Message(id, hashes) =>
      if id < |s.jobs| && s.jobs[id].phase.Idle? {
        assert s.jobs[id] in s.jobs;
        UpdateKeepsGood(s, n, id, s.jobs[id].(phase := Picking(0), hashes := hashes));
      }
    case Close(id) =>
      if id < |s.jobs| && s.jobs[id].phase.Idle? {
        assert s.jobs[id] in s.jobs;
        UpdateKeepsGood(s, n, id, s.jobs[id].(phase := Done(Closed)));
      }
    case Answered(id, reply) =>
      if id < |s.jobs| && s.jobs[id].phase.Calling? {
        OtherJobsOk(n, s.jobs[id], reply);
        UncountedMoves(n, s.jobs[id], Refused(AllSaturated), reply);
        UpdateKeepsGood(s, n, id, AfterReply(s.jobs[id], reply));
      }
    case Advance(id) =>
      if id < |s.jobs| {
        AdvanceKeepsGood(s, n, id);
      }
    case Probe(results) =>
      ProbeKeepsGood(s, n, results);
  }

  ghost predicate Sized(s: System, n: nat) {
    |s.fleet.replicas| == |s.dropped| == n && forall j :: j in s.jobs ==> JobOk(n, j)
  }

  lemma GoodIsSized(s: System, n: nat)
    requires Good(s, n)
    ensures Sized(s, n)
  {
  }

  // Every reachable state, over all interleavings, is good.
  lemma {:induction false} ReachableIsGood(n: nat, policy: Policy, cfg: Config, events: seq<Event>)
    ensures Good(Exec(Boot(n, policy, cfg), events), n)
    decreases |events|
  {
    hide Good, Step;
    if |events| == 0 {
      BootIsGood(n, policy, cfg);
    } else {
      ReachableIsGood(n, policy, cfg, events[..|events| - 1]);
      StepKeepsGood(Exec(Boot(n, policy, cfg), events[..|events| - 1]), n, events[|events| - 1]);
    }
  }

  lemma BootIsGood(n: nat, policy: Policy, cfg: Config)
    ensures Good(Boot(n, policy, cfg), n)
  {
  }
}

// What every interleaving keeps about outcomes: when a request is rejected
// and why, what a failed call does to its replica, and what else may take a
// replica out of routing.
module ProtocolOutcomes {
  import opened LruCache
  import opened Routing
  import opened Protocol
  import opened ProtocolLaws
  import Theorems = ProtocolTheorems
  import Retries = ProtocolRetries

  // -------- rejections --------

  // The state of the fleet that each refusal reports.
  ghost predicate Warrants(f: Fleet, error: PickError) {
    match error
    case NoHealthyReplicas => forall i: nat :: i < |f.replicas| ==> !f.replicas[i].healthy
    case AllSaturated =>
      && (exists i: nat :: i < |f.replicas| && f.replicas[i].healthy)
      && forall i: nat :: i < |f.replicas| && f.replicas[i].healthy ==> f.replicas[i].inflight >= f.cfg.maxInflight
  }

  ghost predicate PicksIn(s: System, id: nat, error: PickError) {
    id < |s.jobs| && s.jobs[id].kind.Unary? && s.jobs[id].phase.Picking? && Warrants(s.fleet, error)
  }

  // Event k is a pick of unary handler id, with the fleet in that state.
  ghost predicate RefusedAt(s: System, events: seq<Event>, id: nat, error: PickError, k: nat)
    requires |s.fleet.replicas| == |s.dropped|
  {
    k < |events| && events[k] == Advance(id) && PicksIn(Exec(s, events[..k]), id, error)
  }

  ghost predicate IsRejected(s: System, id: nat, error: PickError) {
    id < |s.jobs| && s.jobs[id].kind.Unary? && s.jobs[id].phase == Done(Rejected(error))
  }

  lemma WarrantsRefusal(f: Fleet, hashes: seq<Hash>, error: PickError)
    requires WellFormed(f)
    ensures Pick(f, hashes).1 == Refused(error) <==> Warrants(f, error)
  {
    hide Pick;
    PickIsExact(f, hashes);
    assert forall i: nat :: Healthy(f, i) <==> i < |f.replicas| && f.replicas[i].healthy;
  }

  lemma AdvanceRejects(s: System, n: nat, id: nat, error: PickError)
    requires Sized(s, n) && WellFormed(s.fleet) && id < |s.jobs| && s.jobs[id].kind.Unary?
    ensures IsRejected(AdvanceJob(s, id), id, error) <==> IsRejected(s, id, error) || PicksIn(s, id, error)
  {
    hide Pick, Warrants, WellFormed, CountsOk;
    assert JobOk(n, s.jobs[id]);
    WarrantsRefusal(s.fleet, s.jobs[id].hashes, error);
  }

  lemma StepRejects(s: System, n: nat, e: Event, id: nat, error: PickError)
    requires Sized(s, n) && WellFormed(s.fleet)
    ensures IsRejected(Step(s, e), id, error) <==>
            IsRejected(s, id, error) || (e == Advance(id) && PicksIn(s, id, error))
  {
    hide AdvanceJob, JobOk, WellFormed, Warrants, ApplyProbe;
    if id < |s.jobs| && s.jobs[id].kind.Unary? {
      if e == Advance(id) {
        AdvanceRejects(s, n, id, error);
      } else if e.Answered? && e.id == id && s.jobs[id].phase.Calling? {
      } else {
        Retries.OthersLeaveAlone(s, n, e, id, 0);
      }
    } else {
      NewcomerNotRejected(s, e, id, error);
    }
  }

  lemma NewcomerNotRejected(s: System, e: Event, id: nat, error: PickError)
    requires |s.fleet.replicas| == |s.dropped|
    requires id < |s.jobs| ==> s.jobs[id].kind.Stream?
    ensures !IsRejected(Step(s, e), id, error)
  {
    hide Pick, ApplyProbe;
    if e.Probe? {
      Retries.ProbeLeavesJobs(s, e.results);
    }
  }

  lemma BootNotRejected(n: nat, policy: Policy, cfg: Config, id: nat, error: PickError)
    ensures !IsRejected(Boot(n, policy, cfg), id, error)
  {
  }

  // A unary request is rejected, with the reason given, exactly when at one
  // of its picks the fleet was in the state that the reason reports.
  lemma {:induction false} RejectedExactlyWhen(n: nat, policy: Policy, cfg: Config, events: seq<Event>, id: nat, error: PickError)
    ensures var s0 := Boot(n, policy, cfg);
            IsRejected(Exec(s0, events), id, error) <==> exists k: nat :: RefusedAt(s0, events, id, error, k)
    decreases |events|
  {
    hide Step, IsRejected, PicksIn, Good;
    var s0 := Boot(n, policy, cfg);
    if |events| == 0 {
      BootNotRejected(n, policy, cfg, id, error);
    } else {
      var front, e := events[..|events| - 1], events[|events| - 1];
      RejectedExactlyWhen(n, policy, cfg, front, id, error);
      ReachableIsGood(n, policy, cfg, front);
      GoodIsSized(Exec(s0, front), n);
      Retries.ReadyToPick(n, policy, cfg, front);
      StepRejects(Exec(s0, front), n, e, id, error);
      forall k: nat | k < |front| ensures events[..k] == front[..k] {
      }
      if k: nat :| RefusedAt(s0, front, id, error, k) {
        assert RefusedAt(s0, events, id, error, k);
      }
      if e == Advance(id) && PicksIn(Exec(s0, front), id, error) {
        assert RefusedAt(s0, events, id, error, |front|);
      }
      if k: nat :| RefusedAt(s0, events, id, error, k) {
        assert k < |front| ==> RefusedAt(s0, front, id, error, k);
        assert k == |front| ==> events[..k] == front;
      }
    }
  }

  // -------- failed calls --------

  predicate EndsIn(calls: seq<Call>, call: Call) {
    |calls| > 0 && calls[|calls| - 1] == call
  }

  // A handler between its reply and its next step remembers both.
  ghost predicate LastCallOk(j: Job) {
    match j.phase
    case Completing(_, d, reply) => EndsIn(j.calls, Call(d.replica, reply))
    case Marking(_, d, reply) => EndsIn(j.calls, Call(d.replica, reply)) && Theorems.AtTransport(reply)
    case _ => true
  }

  lemma MovesLastCallOk(j: Job, o: Outcome, reply: Reply)
    requires LastCallOk(j)
    ensures j.phase.Picking? ==> LastCallOk(AfterPick(j, o))
    ensures j.phase.Calling? ==> LastCallOk(AfterReply(j, reply))
    ensures j.phase.Completing? ==> LastCallOk(AfterComplete(j))
    ensures j.phase.Marking? ==> LastCallOk(AfterMark(j))
    ensures j.phase.Recording? ==> LastCallOk(AfterRecord(j))
  {
  }

  lemma StepLastCallOk(s: System, e: Event)
    requires |s.fleet.replicas| == |s.dropped| && forall j :: j in s.jobs ==> LastCallOk(j)
    ensures forall j :: j in Step(s, e).jobs ==> LastCallOk(j)
  {
    hide Pick, ApplyProbe, AfterPick, AfterReply, AfterComplete, AfterMark, AfterRecord;
    if e.Probe? {
      Retries.ProbeLeavesJobs(s, e.results);
    } else if e.Answered? && e.id < |s.jobs| {
      MovesLastCallOk(s.jobs[e.id], Refused(AllSaturated), e.reply);
    } else if e.Advance? && e.id < |s.jobs| {
      MovesLastCallOk(s.jobs[e.id], Pick(s.fleet, s.jobs[e.id].hashes).1, Served);
    }
  }

  lemma {:induction false} ReachableLastCallOk(n: nat, policy: Policy, cfg: Config, events: seq<Event>)
    ensures forall j :: j in Exec(Boot(n, policy, cfg), events).jobs ==> LastCallOk(j)
    decreases |events|
  {
    hide Step, LastCallOk;
    if |events| > 0 {
      ReachableLastCallOk(n, policy, cfg, events[..|events| - 1]);
      StepLastCallOk(Exec(Boot(n, policy, cfg), events[..|events| - 1]), events[|events| - 1]);
    }
  }

  // The handler's m-th call is its last, failed at transport on replica r,
  // and has been dealt with.
  ghost predicate PastFailure(s: System, id: nat, m: nat, r: nat) {
    && id < |s.jobs| && |s.jobs[id].calls| == m > 0
    && s.jobs[id].calls[m - 1].replica == r && Theorems.AtTransport(s.jobs[id].calls[m - 1].reply)
    && !s.jobs[id].phase.Marking? && !(s.jobs[id].kind.Unary? && s.jobs[id].phase.Completing?)
  }

  ghost predicate ReadmittedSince(s: System, events: seq<Event>, id: nat, m: nat, r: nat, k: nat)
    requires |s.fleet.replicas| == |s.dropped|
  {
    k < |events| && Retries.Readmits(events[k], r) && PastFailure(Exec(s, events[..k]), id, m, r)
  }

  // A handler gets past a failed call only by marking its replica.
  lemma AdvancePastFailure(s: System, n: nat, id: nat, m: nat, r: nat)
    requires Sized(s, n) && id < |s.jobs| && LastCallOk(s.jobs[id])
    requires PastFailure(AdvanceJob(s, id), id, m, r) && !PastFailure(s, id, m, r)
    ensures !Healthy(AdvanceJob(s, id).fleet, r)
  {
    hide Pick;
    assert JobOk(n, s.jobs[id]);
  }

  lemma StepPastFailure(s: System, n: nat, e: Event, id: nat, m: nat, r: nat)
    requires Sized(s, n) && forall j :: j in s.jobs ==> LastCallOk(j)
    requires PastFailure(Step(s, e), id, m, r) && !PastFailure(s, id, m, r)
    ensures !Healthy(Step(s, e).fleet, r)
  {
    hide AdvanceJob, ApplyProbe;
    if e.Probe? {
      Retries.ProbeLeavesJobs(s, e.results);
    } else if e.Advance? && e.id < |s.jobs| {
      if e.id == id {
        AdvancePastFailure(s, n, id, m, r);
      } else {
        AdvanceMovesOnly(s, e.id, id);
      }
    }
  }

  lemma AdvanceMovesOnly(s: System, i: nat, id: nat)
    requires |s.fleet.replicas| == |s.dropped| && i < |s.jobs| && i != id
    ensures |AdvanceJob(s, i).jobs| == |s.jobs|
    ensures id < |s.jobs| ==> AdvanceJob(s, i).jobs[id] == s.jobs[id]
  {
    hide Pick, AfterPick, AfterComplete, AfterMark, AfterRecord;
  }

  // Once a handler, unary or streaming, is past a call that failed at
  // transport, the replica of that call is out of routing, unless the prober
  // has readmitted it since. In particular this holds when a unary request
  // has given up, and when a stream waits for its next message.
  lemma {:induction false} FailedCallsAreMarked(n: nat, policy: Policy, cfg: Config, events: seq<Event>, id: nat, m: nat, r: nat)
    requires PastFailure(Exec(Boot(n, policy, cfg), events), id, m, r)
    ensures var s0 := Boot(n, policy, cfg);
            !Healthy(Exec(s0, events).fleet, r) || exists k: nat :: ReadmittedSince(s0, events, id, m, r, k)
    decreases |events|
  {
    hide Step, PastFailure, Good, LastCallOk, Retries.Readmits;
    var s0 := Boot(n, policy, cfg);
    if |events| == 0 {
      BootNotPast(n, policy, cfg, id, m, r);
    } else {
      var front, e := events[..|events| - 1], events[|events| - 1];
      var s := Exec(s0, front);
      ReachableIsGood(n, policy, cfg, front);
      GoodIsSized(s, n);
      ReachableLastCallOk(n, policy, cfg, front);
      if !PastFailure(s, id, m, r) {
        StepPastFailure(s, n, e, id, m, r);
      } else {
        FailedCallsAreMarked(n, policy, cfg, front, id, m, r);
        if k: nat :| ReadmittedSince(s0, front, id, m, r, k) {
          assert events[..k] == front[..k];
          assert ReadmittedSince(s0, events, id, m, r, k);
        } else if Retries.Readmits(e, r) {
          assert ReadmittedSince(s0, events, id, m, r, |front|);
        } else {
          Retries.StepKeepsOut(s, e, r);
        }
      }
    }
  }

  lemma BootNotPast(n: nat, policy: Policy, cfg: Config, id: nat, m: nat, r: nat)
    ensures !PastFailure(Boot(n, policy, cfg), id, m, r)
  {
  }

  // -------- what else takes a replica out --------

  lemma {:induction false} ProbeTakesOut(s: System, results: seq<(nat, bool)>, r: nat)
    requires |s.fleet.replicas| == |s.dropped|
    requires Healthy(s.fleet, r) && !Healthy(ApplyProbe(s, results).fleet, r)
    ensures (r, false) in results
    decreases |results|
  {
    var front, last := results[..|results| - 1], results[|results| - 1];
    assert last == (last.0, last.1);
    if !Healthy(ApplyProbe(s, front).fleet, r) {
      ProbeTakesOut(s, front, r);
    } else {
      assert last in results;
    }
  }

  // The last call went to r and failed at transport.
  predicate FailedOn(j: Job, r: nat) {
    |j.calls| > 0 && j.calls[|j.calls| - 1].replica == r && Theorems.AtTransport(j.calls[|j.calls| - 1].reply)
  }

  lemma PickKeepsHealth(f: Fleet, hashes: seq<Hash>, r: nat)
    requires Healthy(f, r)
    ensures Healthy(Pick(f, hashes).0, r)
  {
    hide Routes, Serve;
    forall i: nat | Routes(f, hashes, i) ensures Available(f, i) {
      RouteIsAvailable(f, hashes, i);
    }
  }

  lemma AdvanceTakesOut(s: System, id: nat, r: nat)
    requires |s.fleet.replicas| == |s.dropped| && id < |s.jobs| && LastCallOk(s.jobs[id])
    requires Healthy(s.fleet, r) && !Healthy(AdvanceJob(s, id).fleet, r)
    ensures FailedOn(s.jobs[id], r)
  {
    hide Pick, AfterPick, AfterComplete, AfterMark, AfterRecord;
    PickKeepsHealth(s.fleet, s.jobs[id].hashes, r);
  }

  lemma StepTakesOut(s: System, e: Event, r: nat)
    requires |s.fleet.replicas| == |s.dropped| && forall j :: j in s.jobs ==> LastCallOk(j)
    requires Healthy(s.fleet, r) && !Healthy(Step(s, e).fleet, r)
    ensures || (e.Probe? && (r, false) in e.results)
            || (e.Advance? && e.id < |s.jobs| && FailedOn(s.jobs[e.id], r))
  {
    hide ApplyProbe, AdvanceJob, LastCallOk;
    if e.Probe? {
      ProbeTakesOut(s, e.results, r);
    } else if e.Advance? && e.id < |s.jobs| {
      AdvanceTakesOut(s, e.id, r);
    }
  }

  // In every reachable state, a replica leaves routing only by a probe that
  // finds it dead, or by a handler whose call to it failed at transport.
  lemma OnlyFailuresTakeOut(n: nat, policy: Policy, cfg: Config, events: seq<Event>, e: Event, r: nat)
    requires var s := Exec(Boot(n, policy, cfg), events);
             Healthy(s.fleet, r) && !Healthy(Step(s, e).fleet, r)
    ensures var s := Exec(Boot(n, policy, cfg), events);
            || (e.Probe? && (r, false) in e.results)
            || (e.Advance? && e.id < |s.jobs| && FailedOn(s.jobs[e.id], r))
  {
    hide Exec, Step, ApplyProbe, AdvanceJob, LastCallOk;
    var s := Exec(Boot(n, policy, cfg), events);
    ReachableLastCallOk(n, policy, cfg, events);
    StepTakesOut(s, e, r);
  }

  // -------- one probing pass --------

  predicate EachOnce(results: seq<(nat, bool)>) {
    forall i, j :: 0 <= i < j < |results| ==> results[i].0 != results[j].0
  }

  // A pass that reports each replica at most once: a live replica is in
  // routing afterwards and otherwise as before; a dead one that was in routing
  // is out, with its load and picture gone; any other replica is as before.
  lemma {:induction false} ProbeIsExact(s: System, results: seq<(nat, bool)>, r: nat)
    requires |s.fleet.replicas| == |s.dropped| && r < |s.dropped| && EachOnce(results)
    ensures var t, was := ApplyProbe(s, results), s.fleet.replicas[r];
            && t.fleet.replicas[r] ==
                 (if (r, true) in results then Replica(was.cache, was.inflight, true)
                  else if (r, false) in results && was.healthy then Replica(EMPTY, 0, false)
                  else was)
            && t.dropped[r] == s.dropped[r] + (if (r, false) in results && was.healthy then was.inflight else 0)
            && t.fleet == s.fleet.(replicas := t.fleet.replicas)
            && t.jobs == s.jobs && t.metrics == s.metrics
    decreases |results|
  {
    if |results| > 0 {
      var front, last := results[..|results| - 1], results[|results| - 1];
      ProbeIsExact(s, front, r);
      assert results == front + [last] && last == (last.0, last.1);
      assert forall x :: x in results <==> x in front || x == last;
      assert last.0 == r ==> (r, true) !in front && (r, false) !in front;
    }
  }
}

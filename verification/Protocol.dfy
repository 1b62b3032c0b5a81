// crates/router/src/server.rs: request handlers and the health prober around
// the shared scheduler, as interleaved atomic steps. Each lock acquisition
// and each counter increment is one step; replies and probe results are
// chosen by the environment.
module Protocol {
  import opened LruCache
  import opened Routing

  datatype Code =
    | Cancelled | Unknown | InvalidArgument | DeadlineExceeded | NotFound | AlreadyExists
    | PermissionDenied | ResourceExhausted | FailedPrecondition | Aborted | OutOfRange
    | Unimplemented | Internal | Unavailable | DataLoss | Unauthenticated

  predicate IsTransportFailure(code: Code) {
    code.Unavailable? || code.Unknown? || code.Internal? || code.Cancelled?
  }

  // What came of an upstream call. A stream that opened counts as served
  // even if it breaks later: no replay, no marking.
  datatype Reply = Served | Failed(code: Code)

  predicate TransportFailed(reply: Reply) {
    reply.Failed? && IsTransportFailure(reply.code)
  }

  datatype Kind = Unary | Stream

  datatype Answer =
    | Responded
    | Rejected(error: PickError)
    | Propagated(code: Code)
    | GaveUp(code: Code)  // "all attempts failed"
    | Closed

  datatype Phase =
    | Idle                                                       // a stream between messages
    | Picking(attempt: nat)                                      // about to lock for `pick`
    | Calling(attempt: nat, d: RouteDecision)                    // upstream call under way
    | Completing(attempt: nat, d: RouteDecision, reply: Reply)   // about to lock for `complete`
    | Marking(attempt: nat, d: RouteDecision, reply: Reply)      // about to lock for `mark_unhealthy`
    | Recording(d: RouteDecision, next: nat)                     // about to bump counter `next` of 3
    | Done(answer: Answer)

  datatype Call = Call(replica: nat, reply: Reply)

  // A request as `record_served` counts it.
  datatype Sample = Sample(matched: nat, prompt: nat)

  // `calls` and `served` are histories: the upstream calls made, and the
  // decisions that are to be counted.
  datatype Job = Job(kind: Kind, hashes: seq<Hash>, phase: Phase, calls: seq<Call>, served: seq<Sample>)

  datatype Metrics = Metrics(requests: nat, matched: nat, prompt: nat)

  // `dropped[r]` is a history: in-flight counts reset by `mark_unhealthy(r)`.
  datatype System = System(fleet: Fleet, jobs: seq<Job>, metrics: Metrics, dropped: seq<nat>)

  datatype Event =
    | NewUnary(hashes: seq<Hash>)
    | NewStream
    | Message(id: nat, hashes: seq<Hash>)
    | Close(id: nat)
    | Answered(id: nat, reply: Reply)
    | Advance(id: nat)
    | Probe(results: seq<(nat, bool)>)

  function Boot(n: nat, policy: Policy, cfg: Config): System {
    System(Start(n, policy, cfg), [], Metrics(0, 0, 0), seq(n, _ => 0))
  }

  // -------- one handler's own step --------

  function AfterPick(j: Job, o: Outcome): Job
    requires j.phase.Picking?
  {
    match (j.kind, o)
    case (Unary, Routed(d)) => j.(phase := Calling(j.phase.attempt, d))
    case (Unary, Refused(e)) => j.(phase := Done(Rejected(e)))
    case (Stream, Routed(d)) => j.(phase := Recording(d, 0), served := j.served + [Sample(d.matchedBlocks, |j.hashes|)])
    case (Stream, Refused(_)) => j.(phase := Idle)
  }

  function AfterReply(j: Job, reply: Reply): Job
    requires j.phase.Calling?
  {
    var k := j.(calls := j.calls + [Call(j.phase.d.replica, reply)]);
    if j.kind.Stream? && TransportFailed(reply) then k.(phase := Marking(j.phase.attempt, j.phase.d, reply))
    else k.(phase := Completing(j.phase.attempt, j.phase.d, reply))
  }

  function AfterComplete(j: Job): Job
    requires j.phase.Completing?
  {
    var Completing(attempt, d, reply) := j.phase;
    if j.kind.Stream? then j.(phase := Idle)
    else if reply.Served? then
      j.(phase := Recording(d, 0), served := j.served + [Sample(d.matchedBlocks, |j.hashes|)])
    else if IsTransportFailure(reply.code) then j.(phase := Marking(attempt, d, reply))
    else j.(phase := Done(Propagated(reply.code)))
  }

  function AfterMark(j: Job): Job
    requires j.phase.Marking?
  {
    var Marking(attempt, d, reply) := j.phase;
    if j.kind.Stream? then j.(phase := Completing(attempt, d, reply))
    else if attempt == 0 then j.(phase := Picking(1))
    else j.(phase := Done(if reply.Failed? then GaveUp(reply.code) else Responded))
  }

  function AfterRecord(j: Job): Job
    requires j.phase.Recording?
  {
    if j.phase.next < 2 then j.(phase := Recording(j.phase.d, j.phase.next + 1))
    else if j.kind.Stream? then j.(phase := Calling(0, j.phase.d))
    else j.(phase := Done(Responded))
  }

  // `requests_total`, then `matched_blocks_total`, then `prompt_blocks_total`.
  function Bump(m: Metrics, j: Job): Metrics
    requires j.phase.Recording?
  {
    if j.phase.next == 0 then m.(requests := m.requests + 1)
    else if j.phase.next == 1 then m.(matched := m.matched + j.phase.d.matchedBlocks)
    else m.(prompt := m.prompt + |j.hashes|)
  }

  function Mark(s: System, r: nat): System
    requires r < |s.fleet.replicas| == |s.dropped|
  {
    s.(fleet := MarkUnhealthy(s.fleet, r), dropped := s.dropped[r := s.dropped[r] + Inflight(s.fleet, r)])
  }

  // One probing pass, applied under a single lock.
  function ApplyProbe(s: System, results: seq<(nat, bool)>): (s': System)
    requires |s.fleet.replicas| == |s.dropped|
    ensures |s'.fleet.replicas| == |s'.dropped| == |s.dropped|
    decreases |results|
  {
    if |results| == 0 then s
    else
      var s' := ApplyProbe(s, results[..|results| - 1]);
      var (i, live) := results[|results| - 1];
      if i >= |s'.dropped| then s'
      else if live then s'.(fleet := MarkHealthy(s'.fleet, i))
      else if Healthy(s'.fleet, i) then Mark(s', i)
      else s'
  }

  ghost function AdvanceJob(s: System, id: nat): System
    requires id < |s.jobs| && |s.fleet.replicas| == |s.dropped|
  {
    var j := s.jobs[id];
    match j.phase
    case Picking(_) =>
      var (f, o) := Pick(s.fleet, j.hashes);
      s.(fleet := f, jobs := s.jobs[id := AfterPick(j, o)])
    case Completing(_, d, _) =>
      if d.replica < |s.dropped| then s.(fleet := Complete(s.fleet, d.replica), jobs := s.jobs[id := AfterComplete(j)])
      else s
    case Marking(_, d, _) =>
      if d.replica < |s.dropped| then Mark(s, d.replica).(jobs := s.jobs[id := AfterMark(j)]) else s
    case Recording(_, _) =>
      s.(metrics := Bump(s.metrics, j), jobs := s.jobs[id := AfterRecord(j)])
    case _ => s
  }

  // An event that is not possible in `s` changes nothing.
  ghost function Step(s: System, e: Event): System
    requires |s.fleet.replicas| == |s.dropped|
  {
    match e
    case NewUnary(hashes) => s.(jobs := s.jobs + [Job(Unary, hashes, Picking(0), [], [])])
    case NewStream => s.(jobs := s.jobs + [Job(Stream, [], Idle, [], [])])
    case Message(id, hashes) =>
      if id < |s.jobs| && s.jobs[id].phase.Idle?
      then s.(jobs := s.jobs[id := s.jobs[id].(phase := Picking(0), hashes := hashes)]) else s
    case Close(id) =>
      if id < |s.jobs| && s.jobs[id].phase.Idle?
      then s.(jobs := s.jobs[id := s.jobs[id].(phase := Done(Closed))]) else s
    case Answered(id, reply) =>
      if id < |s.jobs| && s.jobs[id].phase.Calling?
      then s.(jobs := s.jobs[id := AfterReply(s.jobs[id], reply)]) else s
    case Advance(id) => if id < |s.jobs| then AdvanceJob(s, id) else s
    case Probe(results) => ApplyProbe(s, results)
  }

  // -------- sums over handlers --------

  ghost function Weigh(jobs: seq<Job>, w: Job -> nat): nat {
    if |jobs| == 0 then 0 else Weigh(jobs[..|jobs| - 1], w) + w(jobs[|jobs| - 1])
  }

  lemma WeighAppend(jobs: seq<Job>, j: Job, w: Job -> nat)
    ensures Weigh(jobs + [j], w) == Weigh(jobs, w) + w(j)
  {
    assert (jobs + [j])[..|jobs|] == jobs;
  }

  lemma {:induction false} WeighUpdate(jobs: seq<Job>, id: nat, j: Job, w: Job -> nat)
    requires id < |jobs|
    ensures Weigh(jobs[id := j], w) + w(jobs[id]) == Weigh(jobs, w) + w(j)
    decreases |jobs|
  {
    var front := jobs[..|jobs| - 1];
    if id < |front| {
      assert jobs[id := j][..|jobs| - 1] == front[id := j];
      WeighUpdate(front, id, j, w);
    } else {
      assert jobs[id := j][..|jobs| - 1] == front;
    }
  }

  lemma {:induction false} WeighBounds(jobs: seq<Job>, v: Job -> nat, w: Job -> nat)
    requires forall j :: j in jobs ==> v(j) <= w(j)
    ensures Weigh(jobs, v) <= Weigh(jobs, w)
    decreases |jobs|
  {
    if |jobs| > 0 {
      WeighBounds(jobs[..|jobs| - 1], v, w);
    }
  }
}

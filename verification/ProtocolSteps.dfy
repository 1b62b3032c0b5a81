// What one handler does, step by step, in literal events: which message is
// routed, what each reply leads to, and what is counted.
module ProtocolSteps {
  import opened LruCache
  import opened Routing
  import opened Protocol
  import opened ProtocolLaws

  lemma ExecOne(s: System, e: Event)
    requires |s.fleet.replicas| == |s.dropped|
    ensures Exec(s, [e]) == Step(s, e)
  {
    hide Step;
    assert [e][..0] == [];
  }

  lemma ExecTwo(s: System, e: Event, e': Event)
    requires |s.fleet.replicas| == |s.dropped|
    ensures |Step(s, e).fleet.replicas| == |Step(s, e).dropped| == |s.dropped|
    ensures Exec(s, [e, e']) == Step(Step(s, e), e')
  {
    hide Step;
    assert [e, e'][..1] == [e];
    ExecOne(s, e);
  }

  lemma ExecThree(s: System, e: Event, e': Event, e'': Event)
    requires |s.fleet.replicas| == |s.dropped|
    ensures |Step(s, e).fleet.replicas| == |Step(s, e).dropped| == |s.dropped|
    ensures var t := Step(Step(s, e), e');
            |t.fleet.replicas| == |t.dropped| == |s.dropped| && Exec(s, [e, e', e'']) == Step(t, e'')
  {
    hide Step;
    assert [e, e', e''][..2] == [e, e'];
    ExecTwo(s, e, e');
  }

  // t is s but for handler id, which is now in the given phase, the fleet,
  // and the history of dropped load.
  ghost predicate Moved(s: System, t: System, id: nat, phase: Phase) {
    && id < |s.jobs| == |t.jobs|
    && (forall i :: 0 <= i < |s.jobs| && i != id ==> t.jobs[i] == s.jobs[i])
    && t.jobs[id].kind == s.jobs[id].kind
    && t.jobs[id].phase == phase
  }

  // t's fleet is s's but for replica r.
  predicate OnlyReplica(s: System, t: System, r: nat, value: Replica) {
    r < |s.fleet.replicas| && t.fleet == s.fleet.(replicas := s.fleet.replicas[r := value])
  }

  // -------- from a request to its call --------

  // A new unary handler, and a new stream, do nothing yet.
  lemma NewHandlers(s: System, hashes: seq<Hash>)
    requires |s.fleet.replicas| == |s.dropped|
    ensures Step(s, NewUnary(hashes)) == s.(jobs := s.jobs + [Job(Unary, hashes, Picking(0), [], [])])
    ensures Step(s, NewStream) == s.(jobs := s.jobs + [Job(Stream, [], Idle, [], [])])
  {
  }

  // The end of the client's stream ends an idle handler and nothing else.
  lemma IdleStreamCloses(s: System, id: nat)
    requires |s.fleet.replicas| == |s.dropped| && id < |s.jobs| && s.jobs[id].phase.Idle?
    ensures var t := Step(s, Close(id));
            && Moved(s, t, id, Done(Closed))
            && t.fleet == s.fleet && t.metrics == s.metrics && t.dropped == s.dropped
            && t.jobs[id].calls == s.jobs[id].calls
  {
  }

  // Nothing happens out of turn: a message waits for an idle stream, a reply
  // for a call, and a handler that waits for either, or is done, does not move.
  lemma OutOfTurn(s: System, id: nat, hashes: seq<Hash>, reply: Reply)
    requires |s.fleet.replicas| == |s.dropped| && id < |s.jobs|
    ensures !s.jobs[id].phase.Idle? ==> Step(s, Message(id, hashes)) == s && Step(s, Close(id)) == s
    ensures !s.jobs[id].phase.Calling? ==> Step(s, Answered(id, reply)) == s
    ensures s.jobs[id].phase.Idle? || s.jobs[id].phase.Calling? || s.jobs[id].phase.Done? ==> Step(s, Advance(id)) == s
  {
  }

  // A message on an idle stream is routed on its own chain, whatever the
  // stream carried before; if it is refused the stream is idle again.
  lemma MessageIsRouted(s: System, id: nat, hashes: seq<Hash>)
    requires |s.fleet.replicas| == |s.dropped| && id < |s.jobs|
    requires s.jobs[id].kind.Stream? && s.jobs[id].phase.Idle?
    ensures var t := Exec(s, [Message(id, hashes), Advance(id)]);
            var (f, o) := Pick(s.fleet, hashes);
            && Moved(s, t, id, if o.Routed? then Recording(o.decision, 0) else Idle)
            && t.fleet == f && t.metrics == s.metrics && t.dropped == s.dropped
            && t.jobs[id].hashes == hashes && t.jobs[id].calls == s.jobs[id].calls
  {
    hide Pick;
    ExecTwo(s, Message(id, hashes), Advance(id));
  }

  // A unary pick: the call goes to the decided replica, and a refusal ends
  // the request with the scheduler's own reason.
  lemma UnaryPick(s: System, id: nat, attempt: nat)
    requires |s.fleet.replicas| == |s.dropped| && id < |s.jobs|
    requires s.jobs[id].kind.Unary? && s.jobs[id].phase == Picking(attempt)
    ensures var t := Exec(s, [Advance(id)]);
            var (f, o) := Pick(s.fleet, s.jobs[id].hashes);
            && Moved(s, t, id, if o.Routed? then Calling(attempt, o.decision) else Done(Rejected(o.error)))
            && t.fleet == f && t.metrics == s.metrics && t.dropped == s.dropped
            && t.jobs[id].hashes == s.jobs[id].hashes && t.jobs[id].calls == s.jobs[id].calls
  {
    hide Pick;
    ExecOne(s, Advance(id));
  }

  lemma RecordStep(s: System, id: nat)
    requires |s.fleet.replicas| == |s.dropped| && id < |s.jobs| && s.jobs[id].phase.Recording?
    ensures Step(s, Advance(id)) == s.(metrics := Bump(s.metrics, s.jobs[id]), jobs := s.jobs[id := AfterRecord(s.jobs[id])])
  {
  }

  // Three increments, one each; then a stream goes on to its call and a
  // unary request is answered.
  lemma RecordsAll(s: System, id: nat, d: RouteDecision)
    requires |s.fleet.replicas| == |s.dropped| && id < |s.jobs| && s.jobs[id].phase == Recording(d, 0)
    ensures var t := Exec(s, [Advance(id), Advance(id), Advance(id)]);
            && Moved(s, t, id, if s.jobs[id].kind.Stream? then Calling(0, d) else Done(Responded))
            && t.metrics == Metrics(s.metrics.requests + 1,
                                    s.metrics.matched + d.matchedBlocks,
                                    s.metrics.prompt + |s.jobs[id].hashes|)
            && t.fleet == s.fleet && t.dropped == s.dropped && t.jobs[id].calls == s.jobs[id].calls
  {
    hide Exec, Step;
    ExecThree(s, Advance(id), Advance(id), Advance(id));
    RecordStep(s, id);
    var s1 := Step(s, Advance(id));
    RecordStep(s1, id);
    RecordStep(Step(s1, Advance(id)), id);
  }

  // -------- from a reply on --------

  // One request less, saturating at none.
  function Released(r: Replica): Replica {
    Replica(r.cache, if r.inflight > 0 then r.inflight - 1 else 0, r.healthy)
  }

  // The three kinds of step after a call, one at a time.
  lemma ReplyStep(s: System, id: nat, reply: Reply)
    requires |s.fleet.replicas| == |s.dropped| && id < |s.jobs| && s.jobs[id].phase.Calling?
    ensures Step(s, Answered(id, reply)) == s.(jobs := s.jobs[id := AfterReply(s.jobs[id], reply)])
  {
  }

  lemma MarkStep(s: System, id: nat)
    requires |s.fleet.replicas| == |s.dropped| && id < |s.jobs|
    requires s.jobs[id].phase.Marking? && s.jobs[id].phase.d.replica < |s.dropped|
    ensures Step(s, Advance(id)) == Mark(s, s.jobs[id].phase.d.replica).(jobs := s.jobs[id := AfterMark(s.jobs[id])])
  {
  }

  lemma CompleteStep(s: System, id: nat)
    requires |s.fleet.replicas| == |s.dropped| && id < |s.jobs|
    requires s.jobs[id].phase.Completing? && s.jobs[id].phase.d.replica < |s.dropped|
    ensures Step(s, Advance(id)) ==
              s.(fleet := Complete(s.fleet, s.jobs[id].phase.d.replica), jobs := s.jobs[id := AfterComplete(s.jobs[id])])
  {
  }

  lemma MarkThenComplete(f: Fleet, r: nat)
    requires r < |f.replicas|
    ensures |MarkUnhealthy(f, r).replicas| == |f.replicas|
    ensures Complete(MarkUnhealthy(f, r), r) == f.(replicas := f.replicas[r := Replica(EMPTY, 0, false)])
  {
  }

  // A stream that could not be opened: the replica is taken out of routing,
  // with its load and picture gone, before the stream is idle again.
  lemma StreamNotOpened(s: System, id: nat, d: RouteDecision, attempt: nat, reply: Reply)
    requires |s.fleet.replicas| == |s.dropped| && id < |s.jobs| && d.replica < |s.dropped|
    requires s.jobs[id].kind.Stream? && s.jobs[id].phase == Calling(attempt, d)
    requires reply in {Failed(Unavailable), Failed(Unknown), Failed(Internal), Failed(Cancelled)}
    ensures var t := Exec(s, [Answered(id, reply), Advance(id), Advance(id)]);
            && Moved(s, t, id, Idle)
            && OnlyReplica(s, t, d.replica, Replica(EMPTY, 0, false))
            && t.dropped == s.dropped[d.replica := s.dropped[d.replica] + s.fleet.replicas[d.replica].inflight]
            && t.metrics == s.metrics && t.jobs[id].calls == s.jobs[id].calls + [Call(d.replica, reply)]
  {
    hide MarkUnhealthy, Complete, Exec, Step;
    MarkThenComplete(s.fleet, d.replica);
    ExecThree(s, Answered(id, reply), Advance(id), Advance(id));
    ReplyStep(s, id, reply);
    var s1 := Step(s, Answered(id, reply));
    MarkStep(s1, id);
    CompleteStep(Step(s1, Advance(id)), id);
  }

  // Any other reply to a stream, an opened one that breaks included, only
  // takes one off the replica's load.
  lemma StreamCompleted(s: System, id: nat, d: RouteDecision, attempt: nat, reply: Reply)
    requires |s.fleet.replicas| == |s.dropped| && id < |s.jobs| && d.replica < |s.dropped|
    requires s.jobs[id].kind.Stream? && s.jobs[id].phase == Calling(attempt, d)
    requires reply !in {Failed(Unavailable), Failed(Unknown), Failed(Internal), Failed(Cancelled)}
    ensures var t := Exec(s, [Answered(id, reply), Advance(id)]);
            && Moved(s, t, id, Idle)
            && OnlyReplica(s, t, d.replica, Released(s.fleet.replicas[d.replica]))
            && t.dropped == s.dropped && t.metrics == s.metrics
            && t.jobs[id].calls == s.jobs[id].calls + [Call(d.replica, reply)]
  {
    hide Exec, Step;
    ExecTwo(s, Answered(id, reply), Advance(id));
    ReplyStep(s, id, reply);
    CompleteStep(Step(s, Answered(id, reply)), id);
  }

  // A served unary call completes, and is about to be recorded; another
  // failure than of transport completes, and is the answer.
  lemma UnaryCompleted(s: System, id: nat, d: RouteDecision, attempt: nat, reply: Reply)
    requires |s.fleet.replicas| == |s.dropped| && id < |s.jobs| && d.replica < |s.dropped|
    requires s.jobs[id].kind.Unary? && s.jobs[id].phase == Calling(attempt, d)
    requires reply !in {Failed(Unavailable), Failed(Unknown), Failed(Internal), Failed(Cancelled)}
    ensures var t := Exec(s, [Answered(id, reply), Advance(id)]);
            && Moved(s, t, id, if reply == Served then Recording(d, 0) else Done(Propagated(reply.code)))
            && OnlyReplica(s, t, d.replica, Released(s.fleet.replicas[d.replica]))
            && t.dropped == s.dropped && t.metrics == s.metrics && t.jobs[id].hashes == s.jobs[id].hashes
            && t.jobs[id].calls == s.jobs[id].calls + [Call(d.replica, reply)]
  {
    hide Exec, Step;
    ExecTwo(s, Answered(id, reply), Advance(id));
    ReplyStep(s, id, reply);
    CompleteStep(Step(s, Answered(id, reply)), id);
  }

  lemma CompleteThenMark(f: Fleet, r: nat)
    requires r < |f.replicas|
    ensures |Complete(f, r).replicas| == |f.replicas|
    ensures Complete(f, r).replicas[r] == Released(f.replicas[r])
    ensures MarkUnhealthy(Complete(f, r), r) == f.(replicas := f.replicas[r := Replica(EMPTY, 0, false)])
  {
  }

  // A transport failure marks the replica: the first one leads to a second
  // pick, the second one to giving up.
  lemma UnaryFailed(s: System, id: nat, d: RouteDecision, attempt: nat, code: Code)
    requires |s.fleet.replicas| == |s.dropped| && id < |s.jobs| && d.replica < |s.dropped|
    requires s.jobs[id].kind.Unary? && s.jobs[id].phase == Calling(attempt, d)
    requires code in {Unavailable, Unknown, Internal, Cancelled}
    ensures var t := Exec(s, [Answered(id, Failed(code)), Advance(id), Advance(id)]);
            && Moved(s, t, id, if attempt == 0 then Picking(1) else Done(GaveUp(code)))
            && OnlyReplica(s, t, d.replica, Replica(EMPTY, 0, false))
            && t.dropped == s.dropped[d.replica := s.dropped[d.replica] + Released(s.fleet.replicas[d.replica]).inflight]
            && t.metrics == s.metrics && t.jobs[id].hashes == s.jobs[id].hashes
            && t.jobs[id].calls == s.jobs[id].calls + [Call(d.replica, Failed(code))]
  {
    hide MarkUnhealthy, Complete, Exec, Step;
    CompleteThenMark(s.fleet, d.replica);
    ExecThree(s, Answered(id, Failed(code)), Advance(id), Advance(id));
    ReplyStep(s, id, Failed(code));
    var s1 := Step(s, Answered(id, Failed(code)));
    CompleteStep(s1, id);
    MarkStep(Step(s1, Advance(id)), id);
  }
}

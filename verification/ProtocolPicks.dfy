// The request counters against the run itself: every pick of a stream, and
// for every answered unary request the pick that served it, is counted once.
module ProtocolPicks {
  import opened LruCache
  import opened Routing
  import opened Protocol
  import opened ProtocolLaws
  import Retries = ProtocolRetries

  // What event e routes for handler id, if it is a pick of that handler that
  // is not refused.
  ghost function PickedBy(s: System, e: Event, id: nat): seq<Sample> {
    if e == Advance(id) && id < |s.jobs| && s.jobs[id].phase.Picking?
       && Pick(s.fleet, s.jobs[id].hashes).1.Routed?
    then [Sample(Pick(s.fleet, s.jobs[id].hashes).1.decision.matchedBlocks, |s.jobs[id].hashes|)]
    else []
  }

  // The routed picks of handler id in a run, read off its events.
  ghost function Picks(s: System, events: seq<Event>, id: nat): seq<Sample>
    requires |s.fleet.replicas| == |s.dropped|
    decreases |events|
  {
    if |events| == 0 then []
    else
      var front := events[..|events| - 1];
      Picks(s, front, id) + PickedBy(Exec(s, front), events[|events| - 1], id)
  }

  // The picks that ought to be counted: all of a stream's, and of a unary
  // request that got its response the last.
  ghost function ToCount(j: Job, picks: seq<Sample>): seq<Sample> {
    if j.kind.Stream? then picks
    else if j.phase == Done(Responded) && |picks| > 0 then [picks[|picks| - 1]]
    else []
  }

  // -------- the handlers' own record agrees with the run --------

  ghost predicate EndsIn(picks: seq<Sample>, x: Sample) {
    |picks| > 0 && picks[|picks| - 1] == x
  }

  ghost predicate Tracks(j: Job, picks: seq<Sample>) {
    match j.kind
    case Stream => j.served == picks
    case Unary =>
      && (match j.phase
          case Calling(_, d) => EndsIn(picks, Sample(d.matchedBlocks, |j.hashes|))
          case Completing(_, d, _) => EndsIn(picks, Sample(d.matchedBlocks, |j.hashes|))
          case Recording(_, _) => |picks| > 0 && j.served == [picks[|picks| - 1]]
          case Done(Responded) => |picks| > 0 && j.served == [picks[|picks| - 1]]
          case _ => true)
      && (j.phase.Recording? || j.phase == Done(Responded) || j.served == [])
  }

  ghost predicate TracksAt(s: System, id: nat, picks: seq<Sample>) {
    if id < |s.jobs| then Tracks(s.jobs[id], picks) else picks == []
  }

  lemma AdvanceTracks(s: System, n: nat, id: nat, picks: seq<Sample>)
    requires Sized(s, n) && id < |s.jobs| && Tracks(s.jobs[id], picks)
    ensures |AdvanceJob(s, id).jobs| == |s.jobs|
    ensures Tracks(AdvanceJob(s, id).jobs[id], picks + PickedBy(s, Advance(id), id))
  {
    hide Pick;
    assert JobOk(n, s.jobs[id]);
  }

  lemma AnswerTracks(j: Job, reply: Reply, picks: seq<Sample>)
    requires j.phase.Calling? && Tracks(j, picks)
    ensures Tracks(AfterReply(j, reply), picks)
  {
  }

  lemma AdvanceOther(s: System, i: nat, id: nat)
    requires |s.fleet.replicas| == |s.dropped| && i < |s.jobs| && i != id
    ensures |AdvanceJob(s, i).jobs| == |s.jobs|
    ensures id < |s.jobs| ==> AdvanceJob(s, i).jobs[id] == s.jobs[id]
  {
    hide Pick, AfterPick, AfterComplete, AfterMark, AfterRecord;
  }

  lemma StepTracks(s: System, n: nat, e: Event, id: nat, picks: seq<Sample>)
    requires Sized(s, n) && TracksAt(s, id, picks)
    ensures TracksAt(Step(s, e), id, picks + PickedBy(s, e, id))
  {
    hide AdvanceJob, ApplyProbe, AfterReply, PickedBy;
    NotPicked(s, e, id);
    assert picks + [] == picks;
    if e.Probe? {
      Retries.ProbeLeavesJobs(s, e.results);
    } else if e.Advance? && e.id < |s.jobs| {
      if e.id == id {
        AdvanceTracks(s, n, id, picks);
      } else {
        AdvanceOther(s, e.id, id);
      }
    } else if e.Answered? && e.id == id && id < |s.jobs| && s.jobs[id].phase.Calling? {
      AnswerTracks(s.jobs[id], e.reply, picks);
    } else if (e.Message? || e.Close?) && e.id == id && id < |s.jobs| {
      assert JobOk(n, s.jobs[id]);
    }
  }

  lemma NotPicked(s: System, e: Event, id: nat)
    ensures e != Advance(id) || id >= |s.jobs| ==> PickedBy(s, e, id) == []
  {
  }

  lemma {:induction false} ReachableTracks(n: nat, policy: Policy, cfg: Config, events: seq<Event>, id: nat)
    ensures TracksAt(Exec(Boot(n, policy, cfg), events), id, Picks(Boot(n, policy, cfg), events, id))
    decreases |events|
  {
    hide Step, TracksAt, Good, PickedBy;
    var s0 := Boot(n, policy, cfg);
    if |events| == 0 {
      BootTracks(n, policy, cfg, id);
    } else {
      var front := events[..|events| - 1];
      ReachableTracks(n, policy, cfg, front, id);
      ReachableIsGood(n, policy, cfg, front);
      GoodIsSized(Exec(s0, front), n);
      StepTracks(Exec(s0, front), n, events[|events| - 1], id, Picks(s0, front, id));
    }
  }

  lemma BootTracks(n: nat, policy: Policy, cfg: Config, id: nat)
    ensures TracksAt(Boot(n, policy, cfg), id, [])
  {
  }

  // -------- sums over handlers, read off the run --------

  ghost function Sum(k: nat, term: nat -> nat): nat {
    if k == 0 then 0 else Sum(k - 1, term) + term(k - 1)
  }

  lemma {:induction false} SumIsWeigh(jobs: seq<Job>, w: Job -> nat, term: nat -> nat)
    requires forall i :: 0 <= i < |jobs| ==> w(jobs[i]) == term(i)
    ensures Weigh(jobs, w) == Sum(|jobs|, term)
    decreases |jobs|
  {
    if |jobs| > 0 {
      SumIsWeigh(jobs[..|jobs| - 1], w, term);
    }
  }

  ghost function Counted(s: System, events: seq<Event>): nat -> seq<Sample>
    requires |s.fleet.replicas| == |s.dropped|
  {
    (id: nat) => if id < |Exec(s, events).jobs| then ToCount(Exec(s, events).jobs[id], Picks(s, events, id)) else []
  }

  lemma SettledIsCounted(n: nat, j: Job, picks: seq<Sample>)
    requires Tracks(j, picks) && !j.phase.Recording?
    ensures RequestsOf()(j) == |ToCount(j, picks)|
    ensures MatchedOf()(j) == SumMatched(ToCount(j, picks))
    ensures PromptOf()(j) == SumPrompt(ToCount(j, picks))
  {
  }

  // When no handler is in the middle of recording, the three counters are the
  // number, the matches and the prompt blocks of exactly these picks: every
  // routed pick of every stream, and of every answered unary request the one
  // that served it. Retries and failed calls add nothing of their own.
  lemma CountersTellThePicks(n: nat, policy: Policy, cfg: Config, events: seq<Event>)
    requires forall j :: j in Exec(Boot(n, policy, cfg), events).jobs ==> !j.phase.Recording?
    ensures var s0 := Boot(n, policy, cfg);
            var s, counted := Exec(s0, events), Counted(s0, events);
            && s.metrics.requests == Sum(|s.jobs|, id => |counted(id)|)
            && s.metrics.matched == Sum(|s.jobs|, id => SumMatched(counted(id)))
            && s.metrics.prompt == Sum(|s.jobs|, id => SumPrompt(counted(id)))
  {
    hide Tracks, Picks, ToCount, SumMatched, SumPrompt, Settled, Exec;
    var s0 := Boot(n, policy, cfg);
    var s, counted := Exec(s0, events), Counted(s0, events);
    ReachableIsGood(n, policy, cfg, events);
    forall id | 0 <= id < |s.jobs|
      ensures RequestsOf()(s.jobs[id]) == |counted(id)|
      ensures MatchedOf()(s.jobs[id]) == SumMatched(counted(id))
      ensures PromptOf()(s.jobs[id]) == SumPrompt(counted(id))
    {
      ReachableTracks(n, policy, cfg, events, id);
      SettledIsCounted(n, s.jobs[id], Picks(s0, events, id));
    }
    SumIsWeigh(s.jobs, RequestsOf(), id => |counted(id)|);
    SumIsWeigh(s.jobs, MatchedOf(), id => SumMatched(counted(id)));
    SumIsWeigh(s.jobs, PromptOf(), id => SumPrompt(counted(id)));
  }

  ghost function RequestsBy(s: System, events: seq<Event>, id: nat): nat
    requires |s.fleet.replicas| == |s.dropped|
  {
    var jobs := Exec(s, events).jobs;
    if id >= |jobs| then 0
    else if jobs[id].kind.Stream? then |Picks(s, events, id)|
    else if jobs[id].phase == Done(Responded) then 1 else 0
  }

  lemma ServedByRun(j: Job, picks: seq<Sample>)
    requires Tracks(j, picks) && !j.phase.Recording?
    ensures RequestsOf()(j) == if j.kind.Stream? then |picks| else if j.phase == Done(Responded) then 1 else 0
  {
  }

  // So `requests_total` is the number of unary responses plus that of routed
  // stream picks, and no unary request is counted twice at any time.
  lemma RequestsAreConserved(n: nat, policy: Policy, cfg: Config, events: seq<Event>)
    ensures var s0 := Boot(n, policy, cfg);
            var s := Exec(s0, events);
            (forall j :: j in s.jobs ==> !j.phase.Recording?) ==>
              s.metrics.requests == Sum(|s.jobs|, id => RequestsBy(s0, events, id))
    ensures var s := Exec(Boot(n, policy, cfg), events);
            forall j :: j in s.jobs && j.kind.Unary? ==> RequestsOf()(j) <= 1
  {
    hide Exec, Picks, Tracks, SumMatched, SumPrompt;
    var s0 := Boot(n, policy, cfg);
    var s := Exec(s0, events);
    ReachableIsGood(n, policy, cfg, events);
    forall j | j in s.jobs ensures JobOk(n, j) {
    }
    if forall j :: j in s.jobs ==> !j.phase.Recording? {
      forall id | 0 <= id < |s.jobs| ensures RequestsOf()(s.jobs[id]) == RequestsBy(s0, events, id) {
        ReachableTracks(n, policy, cfg, events, id);
        ServedByRun(s.jobs[id], Picks(s0, events, id));
      }
      SumIsWeigh(s.jobs, RequestsOf(), id => RequestsBy(s0, events, id));
    }
  }
}

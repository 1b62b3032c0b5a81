// What the routing rule guarantees: bounded imbalance, session affinity and
// round-robin fairness.
module RoutingLaws {
  import opened LruCache
  import opened Routing
  import opened SchedulerRuns
  import CacheLaws

  // -------- bounded imbalance --------

  // The chosen replica is busier than an available one by at most what its
  // cache hits are worth.
  lemma ChosenIsNotMuchBusier(f: Fleet, hashes: seq<Hash>, i: nat, j: nat)
    requires f.policy.CacheAware? && f.cfg.alpha >= 0.0 && f.cfg.beta > 0.0
    requires Routes(f, hashes, i) && Available(f, j)
    ensures Available(f, i)
    ensures f.cfg.beta * (Inflight(f, i) as real - Inflight(f, j) as real) <= f.cfg.alpha * |hashes| as real
  {
    hide FirstLeast, Hits, Score;
    var best: nat :| FirstBest(f, hashes, |f.replicas|, best) &&
      if Hits(f, hashes, best) < f.cfg.minMatchBlocks then FirstLeast(f, |f.replicas|, i) else i == best;
    if Hits(f, hashes, best) < f.cfg.minMatchBlocks {
      LeastIsNotBusier(f, i, j);
      Scale(f.cfg.beta, Inflight(f, i) as real - Inflight(f, j) as real, 0.0);
      Scale(f.cfg.alpha, 0.0, |hashes| as real);
    } else {
      BestIsNotMuchBusier(f, hashes, i, j);
    }
  }

  lemma LeastIsNotBusier(f: Fleet, i: nat, j: nat)
    requires FirstLeast(f, |f.replicas|, i) && Available(f, j)
    ensures Available(f, i) && Inflight(f, i) <= Inflight(f, j)
  {
  }

  lemma BestIsNotMuchBusier(f: Fleet, hashes: seq<Hash>, i: nat, j: nat)
    requires f.cfg.alpha >= 0.0
    requires FirstBest(f, hashes, |f.replicas|, i) && Available(f, j)
    ensures Available(f, i)
    ensures f.cfg.beta * (Inflight(f, i) as real - Inflight(f, j) as real) <= f.cfg.alpha * |hashes| as real
  {
    assert Score(f, hashes, j) <= Score(f, hashes, i);
    HitsAreBounded(f, hashes, i);
    hide FirstBest, Lookup;
    ScoresTrade(f.cfg.alpha, f.cfg.beta, Hits(f, hashes, i) as real, Hits(f, hashes, j) as real,
                Inflight(f, i) as real, Inflight(f, j) as real, |hashes| as real);
  }

  lemma HitsAreBounded(f: Fleet, hashes: seq<Hash>, i: nat)
    requires i < |f.replicas|
    ensures Hits(f, hashes, i) <= |hashes|
  {
  }

  lemma ScoresTrade(alpha: real, beta: real, m: real, m': real, load: real, load': real, most: real)
    requires alpha >= 0.0 && 0.0 <= m' && m <= most
    requires alpha * m' - beta * load' <= alpha * m - beta * load
    ensures beta * (load - load') <= alpha * most
  {
    Scale(alpha, m, most);
    Scale(alpha, 0.0, m');
    assert beta * (load - load') == beta * load - beta * load';
  }

  lemma Scale(k: real, x: real, y: real)
    requires k >= 0.0 && x <= y
    ensures k * x <= k * y
  {
  }

  lemma ScoreGap(alpha: real, beta: real, m: real, m': real, load: real, load': real)
    requires alpha * m' - beta * load' <= alpha * m - beta * load
    ensures alpha * (m' - m) <= beta * (load' - load)
  {
    assert alpha * (m' - m) == alpha * m' - alpha * m;
    assert beta * (load' - load) == beta * load' - beta * load;
  }

  lemma BestMatchTrade(f: Fleet, hashes: seq<Hash>, c: nat, r: nat)
    requires FirstBest(f, hashes, |f.replicas|, c) && Available(f, r)
    ensures Available(f, c)
    ensures f.cfg.alpha * (Hits(f, hashes, r) as real - Hits(f, hashes, c) as real)
         <= f.cfg.beta * (Inflight(f, r) as real - Inflight(f, c) as real)
  {
    assert Score(f, hashes, r) <= Score(f, hashes, c);
    hide FirstBest, Lookup;
    ScoreGap(f.cfg.alpha, f.cfg.beta, Hits(f, hashes, c) as real, Hits(f, hashes, r) as real,
             Inflight(f, c) as real, Inflight(f, r) as real);
  }

  lemma RuleHolds(f: Fleet, hashes: seq<Hash>, c: nat) returns (best: nat)
    requires f.policy.CacheAware? && Routes(f, hashes, c)
    ensures FirstBest(f, hashes, |f.replicas|, best) && best < |f.replicas|
    ensures if Hits(f, hashes, best) < f.cfg.minMatchBlocks then FirstLeast(f, |f.replicas|, c) else c == best
  {
    best :| FirstBest(f, hashes, |f.replicas|, best) &&
      if Hits(f, hashes, best) < f.cfg.minMatchBlocks then FirstLeast(f, |f.replicas|, c) else c == best;
  }

  // Whatever the loads: where the best match is long enough, another replica
  // matches more of the request by at most what its load is worse by;
  // otherwise no available replica is less loaded than the chosen one.
  lemma MatchIsTradedForLoad(f: Fleet, hashes: seq<Hash>, r: nat)
    requires WellFormed(f) && f.policy.CacheAware? && Available(f, r)
    ensures var o := Pick(f, hashes).1;
            && o.Routed? && Available(f, o.decision.replica)
            && var (c, matched) := (o.decision.replica, o.decision.matchedBlocks);
               exists best: nat ::
                 && FirstBest(f, hashes, |f.replicas|, best)
                 && if Hits(f, hashes, best) < f.cfg.minMatchBlocks then Inflight(f, c) <= Inflight(f, r)
                    else c == best &&
                         f.cfg.alpha * (Hits(f, hashes, r) as real - matched as real)
                         <= f.cfg.beta * (Inflight(f, r) as real - Inflight(f, c) as real)
  {
    hide FirstBest, FirstLeast, Routes, Available, Hits, Inflight, Pick, Admit;
    RouteExists(f, hashes, r);
    var c: nat :| Routes(f, hashes, c);
    PickRoutesTo(f, hashes, c);
    var best := RuleHolds(f, hashes, c);
    if Hits(f, hashes, best) < f.cfg.minMatchBlocks {
      LeastIsNotBusier(f, c, r);
    } else {
      BestMatchTrade(f, hashes, c, r);
    }
  }

  // Only requests, with chains of at most `limit` blocks.
  predicate ShortRequests(events: seq<Event>, limit: nat) {
    forall e :: e in events ==> e.Request? && |e.hashes| <= limit
  }

  ghost predicate Balanced(f: Fleet, limit: nat) {
    forall i: nat, j: nat :: Healthy(f, i) && Healthy(f, j) ==>
      f.cfg.beta * (Inflight(f, i) as real - Inflight(f, j) as real) <= f.cfg.alpha * limit as real + f.cfg.beta
  }

  lemma OneMore(beta: real, load: real, load': real, bound: real)
    requires beta * (load - load') <= bound
    ensures beta * (load + 1.0 - load') <= bound + beta
  {
    assert beta * (load + 1.0 - load') == beta * (load - load') + beta;
  }

  // The chosen replica against another healthy one, after the pick.
  lemma ChosenStaysClose(f: Fleet, hashes: seq<Hash>, c: nat, j: nat, limit: nat)
    requires f.policy.CacheAware? && f.cfg.alpha >= 0.0 && f.cfg.beta > 0.0 && |hashes| <= limit
    requires Routes(f, hashes, c) && Available(f, c) && Healthy(f, j)
    ensures f.cfg.beta * (Inflight(f, c) as real + 1.0 - Inflight(f, j) as real) <= f.cfg.alpha * limit as real + f.cfg.beta
  {
    hide Routes;
    Scale(f.cfg.alpha, |hashes| as real, limit as real);
    if Available(f, j) {
      ChosenIsNotMuchBusier(f, hashes, c, j);
    } else {
      Scale(f.cfg.beta, Inflight(f, c) as real - Inflight(f, j) as real, 0.0);
      Scale(f.cfg.alpha, 0.0, limit as real);
    }
    OneMore(f.cfg.beta, Inflight(f, c) as real, Inflight(f, j) as real, f.cfg.alpha * limit as real);
  }

  lemma AdmitKeepsBalance(f: Fleet, hashes: seq<Hash>, c: nat, limit: nat)
    requires f.policy.CacheAware? && f.cfg.alpha >= 0.0 && f.cfg.beta > 0.0 && |hashes| <= limit
    requires Balanced(f, limit) && Routes(f, hashes, c) && Available(f, c)
    ensures Balanced(Admit(f, hashes, c), limit)
  {
    hide Routes, Serve;
    var g := Admit(f, hashes, c);
    forall i: nat, j: nat | Healthy(g, i) && Healthy(g, j)
      ensures g.cfg.beta * (Inflight(g, i) as real - Inflight(g, j) as real) <= g.cfg.alpha * limit as real + g.cfg.beta
    {
      assert Healthy(f, i) && Healthy(f, j);
      if i == c && j != c {
        ChosenStaysClose(f, hashes, c, j, limit);
        assert Inflight(g, i) as real == Inflight(f, c) as real + 1.0;
      } else {
        Scale(f.cfg.beta, Inflight(g, i) as real - Inflight(g, j) as real, Inflight(f, i) as real - Inflight(f, j) as real);
      }
    }
  }

  // From an idle fleet, as long as nothing completes and health does not
  // change, the loads of two healthy replicas differ by at most
  // alpha * limit / beta + 1.
  lemma {:induction false} ImbalanceIsBounded(f: Fleet, events: seq<Event>, limit: nat)
    requires WellFormed(f) && f.policy.CacheAware? && f.cfg.alpha >= 0.0 && f.cfg.beta > 0.0
    requires forall i :: 0 <= i < |f.replicas| ==> f.replicas[i].inflight == 0
    requires ShortRequests(events, limit)
    ensures WellFormed(Run(f, events)) && Balanced(Run(f, events), limit)
    decreases |events|
  {
    if |events| == 0 {
      Scale(f.cfg.alpha, 0.0, limit as real);
    } else {
      var front, e := events[..|events| - 1], events[|events| - 1];
      ImbalanceIsBounded(f, front, limit);
      var g := Run(f, front);
      assert e in events;
      hide Routes, Balanced;
      PickIsExact(g, e.hashes);
      var o := Pick(g, e.hashes).1;
      if o.Routed? {
        PickRoutesTo(g, e.hashes, o.decision.replica);
        AdmitKeepsBalance(g, e.hashes, o.decision.replica, limit);
      }
    }
  }

  // -------- session affinity --------

  ghost predicate AllIdle(f: Fleet) {
    forall i :: 0 <= i < |f.replicas| ==> f.replicas[i].healthy && f.replicas[i].inflight == 0
  }

  lemma IdleIsAvailable(f: Fleet, i: nat)
    requires AllIdle(f) && f.cfg.maxInflight > 0 && i < |f.replicas|
    ensures Available(f, i)
  {
  }

  lemma IdleScore(f: Fleet, hashes: seq<Hash>, i: nat)
    requires AllIdle(f) && i < |f.replicas|
    ensures Score(f, hashes, i) == f.cfg.alpha * Hits(f, hashes, i) as real
  {
    assert f.cfg.beta * 0.0 == 0.0;
  }

  lemma ScaleStrictly(k: real, x: real, y: real)
    requires k > 0.0
    ensures x < y ==> k * x < k * y
  {
    if x < y {
      assert k * (y - x) > 0.0;
    }
  }

  // On an idle fleet the longest match decides, once it is long enough.
  lemma LongestMatchWins(f: Fleet, hashes: seq<Hash>, r: nat)
    requires WellFormed(f) && f.policy.CacheAware? && f.cfg.alpha > 0.0 && f.cfg.maxInflight > 0
    requires AllIdle(f) && r < |f.replicas|
    requires Hits(f, hashes, r) >= f.cfg.minMatchBlocks
    ensures var o := Pick(f, hashes).1;
            && o.Routed?
            && forall j: nat :: j < |f.replicas| ==> o.decision.matchedBlocks >= Hits(f, hashes, j)
  {
    hide Lookup, Score;
    IdleIsAvailable(f, r);
    FirstBestExists(f, hashes, |f.replicas|, r);
    var best :| FirstBest(f, hashes, |f.replicas|, best);
    forall j: nat | j < |f.replicas| ensures Hits(f, hashes, j) <= Hits(f, hashes, best) {
      IdleIsAvailable(f, j);
      IdleScore(f, hashes, j);
      IdleScore(f, hashes, best);
      ScaleStrictly(f.cfg.alpha, Hits(f, hashes, best) as real, Hits(f, hashes, j) as real);
    }
    assert Routes(f, hashes, best);
    PickRoutesTo(f, hashes, best);
  }

  // A session's next turn finds what its last turn left: after a chain is
  // routed and completed on an idle fleet, any extension of it is routed to
  // a replica that matches at least as much of it as the budget could keep,
  // and no replica matches more.
  lemma SessionAffinity(f: Fleet, chain: seq<Hash>, extension: seq<Hash>)
    requires Safe(f) && |f.replicas| > 0
    requires f.policy.CacheAware? && f.cfg.alpha > 0.0 && f.cfg.maxInflight > 0
    requires AllIdle(f) && CacheLaws.Distinct(chain)
    requires |chain| >= f.cfg.minMatchBlocks && f.cfg.blockBudget >= f.cfg.minMatchBlocks
    ensures var (g, o) := Pick(f, chain);
            && o.Routed? && o.decision.replica < |g.replicas|
            && var h := Complete(g, o.decision.replica);
               var o' := Pick(h, chain + extension).1;
               && o'.Routed?
               && o'.decision.matchedBlocks >= (if |chain| <= f.cfg.blockBudget then |chain| else f.cfg.blockBudget)
               && forall j: nat :: j < |h.replicas| ==> o'.decision.matchedBlocks >= Hits(h, chain + extension, j)
  {
    hide Routes, Serve, Sound, Available;
    IdleIsAvailable(f, 0);
    PickIsExact(f, chain);
    var (g, o) := Pick(f, chain);
    var r := o.decision.replica;
    RouteIsInRange(f, chain, r);
    PickRoutesTo(f, chain, r);
    var h := Complete(g, r);
    assert SafeReplica(f.replicas[r], f.policy, f.cfg);
    var served := Serve(f.replicas[r].cache, chain, f.cfg.blockBudget);
    CacheLaws.ServedThenFound(f.replicas[r].cache, chain, f.cfg.blockBudget);
    CacheLaws.LeadingOfMore(served.stamps.Keys, served.stamps.Keys, chain, extension);
    assert h.replicas[r] == Replica(served, 0, true);
    LongestMatchWins(h, chain + extension, r);
  }

  lemma RouteIsInRange(f: Fleet, hashes: seq<Hash>, i: nat)
    requires Routes(f, hashes, i)
    ensures i < |f.replicas|
  {
    RouteIsAvailable(f, hashes, i);
  }

  // -------- round-robin fairness --------

  // r can be picked at every request of the run.
  ghost predicate AlwaysAvailable(f: Fleet, events: seq<Event>, r: nat)
    requires AllInRange(|f.replicas|, events)
    decreases |events|
  {
    |events| > 0 ==>
      var front := events[..|events| - 1];
      && AlwaysAvailable(f, front, r)
      && (events[|events| - 1].Request? ==> Available(Run(f, front), r))
  }

  // The replicas chosen by the run, in order.
  ghost function Chosen(f: Fleet, events: seq<Event>): seq<nat>
    requires AllInRange(|f.replicas|, events)
    decreases |events|
  {
    if |events| == 0 then []
    else
      var front, e := events[..|events| - 1], events[|events| - 1];
      if e.Request? && Pick(Run(f, front), e.hashes).1.Routed?
      then Chosen(f, front) + [Pick(Run(f, front), e.hashes).1.decision.replica]
      else Chosen(f, front)
  }

  function Requests(events: seq<Event>): nat {
    if |events| == 0 then 0
    else Requests(events[..|events| - 1]) + if events[|events| - 1].Request? then 1 else 0
  }

  // One pick that passes over r advances the turn towards r.
  lemma TurnAdvances(f: Fleet, hashes: seq<Hash>, c: nat, r: nat)
    requires WellFormed(f) && f.policy.RoundRobin? && Routes(f, hashes, c) && Available(f, r) && c != r
    ensures Available(f, c)
    ensures var n := |f.replicas|;
            && Distance(n, f.rrNext, c) < Distance(n, f.rrNext, r)
            && Admit(f, hashes, c).rrNext < n
            && Distance(n, f.rrNext, Admit(f, hashes, c).rrNext) == Distance(n, f.rrNext, c) + 1
  {
    Wrap(|f.replicas|, c + 1);
  }

  // The chosen replicas lie further and further round from `start`, all of
  // them before `turn`, and there are no more of them than steps made.
  ghost predicate InOrder(n: nat, start: nat, turn: nat, chosen: seq<nat>) {
    && |chosen| <= Distance(n, start, turn)
    && (forall k :: 0 <= k < |chosen| ==> Distance(n, start, chosen[k]) < Distance(n, start, turn))
    && (forall k, l :: 0 <= k < l < |chosen| ==> Distance(n, start, chosen[k]) < Distance(n, start, chosen[l]))
  }

  lemma InOrderNext(n: nat, start: nat, turn: nat, chosen: seq<nat>, c: nat, turn': nat)
    requires InOrder(n, start, turn, chosen)
    requires Distance(n, start, turn) <= Distance(n, start, c) < Distance(n, start, turn')
    ensures InOrder(n, start, turn', chosen + [c])
  {
  }

  // One pick that passes over r advances the turn round from `start`, past
  // the chosen replica and not beyond r.
  lemma TurnPasses(f: Fleet, hashes: seq<Hash>, start: nat, r: nat)
    requires WellFormed(f) && f.policy.RoundRobin? && Available(f, r) && start < |f.replicas|
    requires Distance(|f.replicas|, start, f.rrNext) <= Distance(|f.replicas|, start, r)
    ensures Pick(f, hashes).1.Routed?
    ensures var n, c, g := |f.replicas|, Pick(f, hashes).1.decision.replica, Pick(f, hashes).0;
            c != r ==>
              && WellFormed(g)
              && Distance(n, start, f.rrNext) <= Distance(n, start, c) < Distance(n, start, g.rrNext) <= Distance(n, start, r)
  {
    hide Routes;
    PickIsExact(f, hashes);
    var c := Pick(f, hashes).1.decision.replica;
    PickRoutesTo(f, hashes, c);
    if c != r {
      TurnAdvances(f, hashes, c, r);
    }
  }

  // While r is available at every request and is not chosen, the turn moves
  // round from where it started without passing r, and each chosen replica
  // lies further round than the ones before it.
  lemma {:induction false} TurnsBeforeChosen(f: Fleet, events: seq<Event>, r: nat)
    requires WellFormed(f) && f.policy.RoundRobin? && r < |f.replicas|
    requires AllInRange(|f.replicas|, events) && AlwaysAvailable(f, events, r)
    requires r !in Chosen(f, events)
    ensures var n, g := |f.replicas|, Run(f, events);
            && WellFormed(g)
            && |Chosen(f, events)| == Requests(events)
            && Distance(n, f.rrNext, g.rrNext) <= Distance(n, f.rrNext, r)
            && InOrder(n, f.rrNext, g.rrNext, Chosen(f, events))
    decreases |events|
  {
    hide Pick, InOrder, Distance;
    if |events| > 0 {
      var front, e := events[..|events| - 1], events[|events| - 1];
      var g := Run(f, front);
      assert r !in Chosen(f, front);
      TurnsBeforeChosen(f, front, r);
      if e.Request? {
        TurnPasses(g, e.hashes, f.rrNext, r);
        var c := Pick(g, e.hashes).1.decision.replica;
        assert Chosen(f, events) == Chosen(f, front) + [c];
        assert c in Chosen(f, events);
        InOrderNext(|f.replicas|, f.rrNext, g.rrNext, Chosen(f, front), c, Run(f, events).rrNext);
      }
    } else {
      NotMoved(|f.replicas|, f.rrNext, r);
    }
  }

  lemma NotMoved(n: nat, start: nat, r: nat)
    requires start < n && r < n
    ensures Distance(n, start, start) <= Distance(n, start, r)
    ensures InOrder(n, start, start, [])
  {
  }

  // A replica available at each of n consecutive requests is chosen at least
  // once, however the load and health of the others change.
  lemma RoundRobinWaitIsBounded(f: Fleet, events: seq<Event>, r: nat)
    requires WellFormed(f) && f.policy.RoundRobin? && r < |f.replicas|
    requires AllInRange(|f.replicas|, events) && AlwaysAvailable(f, events, r)
    requires Requests(events) >= |f.replicas|
    ensures r in Chosen(f, events)
  {
    if r !in Chosen(f, events) {
      TurnsBeforeChosen(f, events, r);
    }
  }

  // Until an always available replica is chosen, no other is chosen twice;
  // starting right after it was chosen, this is between two of its turns.
  lemma NoneTwiceBetweenTurns(f: Fleet, events: seq<Event>, r: nat, k: nat, l: nat)
    requires WellFormed(f) && f.policy.RoundRobin? && r < |f.replicas|
    requires AllInRange(|f.replicas|, events) && AlwaysAvailable(f, events, r)
    requires r !in Chosen(f, events) && k < l < |Chosen(f, events)|
    ensures Chosen(f, events)[k] != Chosen(f, events)[l]
  {
    TurnsBeforeChosen(f, events, r);
  }
}

// The router's cache pictures against the replicas' own caches, over every
// run of requests, resets, and losses the router does not notice.
module Mirror {
  import opened LruCache
  import opened Routing
  import Runs = SchedulerRuns
  import Recency
  import CacheLaws

  // A replica's `KvCacheSim`, and two histories. `behind`: since the router
  // last forgot the replica, a request routed to it has not reached its cache
  // in turn, it restarted unmarked, or it served something else after the
  // router had pictured blocks in it. `strayed`: since picture and cache were
  // last empty together, any of these happened, or it served something the
  // router has no picture of, or the router forgot a cache that was not lost.
  datatype Actual = Actual(sim: Cache, behind: bool, strayed: bool)

  datatype World = World(fleet: Fleet, actual: seq<Actual>)

  datatype Event =
    | Request(hashes: seq<Hash>, delivered: bool)  // routed; did it reach the replica's cache in turn?
    | Arrived(replica: nat, hashes: seq<Hash>)     // served out of turn: late, overtaken, repeated
    | Completed(replica: nat)
    | Lost(replica: nat, restarted: bool)          // marked unhealthy; did it really lose its cache?
    | Readmitted(replica: nat)
    | Restarted(replica: nat)                      // lost its cache between two probes, unmarked

  // What the router predicted for a routed request, what its replica found,
  // and the replica's histories at that time.
  datatype Report = Report(predicted: nat, found: nat, behind: bool, strayed: bool)

  predicate InRange(n: nat, e: Event) {
    e.Request? || e.replica < n
  }

  predicate AllInRange(n: nat, events: seq<Event>) {
    forall e :: e in events ==> InRange(n, e)
  }

  ghost predicate Shaped(w: World, n: nat) {
    |w.fleet.replicas| == |w.actual| == n && Runs.Safe(w.fleet) && forall i :: 0 <= i < n ==> Sound(w.actual[i].sim)
  }

  ghost function FleetStep(f: Fleet, e: Event): (f': Fleet)
    requires InRange(|f.replicas|, e)
    ensures |f'.replicas| == |f.replicas| && f'.policy == f.policy && f'.cfg == f.cfg
  {
    match e
    case Request(hashes, _) => Runs.Step(f, Runs.Request(hashes))
    case Arrived(_, _) => f
    case Completed(r) => Runs.Step(f, Runs.Completed(r))
    case Lost(r, _) => Runs.Step(f, Runs.Lost(r))
    case Readmitted(r) => Runs.Step(f, Runs.Readmitted(r))
    case Restarted(_) => f
  }

  // One replica's own part in an event, while the router has `picture` of it.
  ghost function ActualStep(a: Actual, picture: Cache, e: Event, capacity: nat): Actual {
    match e
    case Request(hashes, delivered) =>
      if delivered then a.(sim := Serve(a.sim, hashes, capacity)) else a.(behind := true, strayed := true)
    case Arrived(_, hashes) =>
      Actual(Serve(a.sim, hashes, capacity), a.behind || picture.stamps != map[], true)
    case Completed(_) => a
    case Lost(_, restarted) => if restarted then Actual(EMPTY, false, false) else a.(behind := false, strayed := true)
    case Readmitted(_) => a
    case Restarted(_) => Actual(EMPTY, true, true)
  }

  // The replica an event happens to, if any.
  ghost function Target(f: Fleet, e: Event): (r: nat)
    requires InRange(|f.replicas|, e)
    ensures r <= |f.replicas|
  {
    if !e.Request? then e.replica
    else
      var o := Pick(f, e.hashes).1;
      if o.Routed? && o.decision.replica < |f.replicas| then o.decision.replica else |f.replicas|
  }

  ghost function Step(w: World, e: Event, capacity: nat): World
    requires InRange(|w.fleet.replicas|, e)
  {
    var r := Target(w.fleet, e);
    World(FleetStep(w.fleet, e),
          if r < |w.fleet.replicas| && r < |w.actual|
          then w.actual[r := ActualStep(w.actual[r], w.fleet.replicas[r].cache, e, capacity)]
          else w.actual)
  }

  ghost function Told(w: World, e: Event): seq<Report>
    requires InRange(|w.fleet.replicas|, e)
  {
    var r := Target(w.fleet, e);
    if e.Request? && e.delivered && r < |w.actual| && Pick(w.fleet, e.hashes).1.Routed? then
      var a := w.actual[r];
      [Report(Pick(w.fleet, e.hashes).1.decision.matchedBlocks, Lookup(a.sim, e.hashes), a.behind, a.strayed)]
    else []
  }

  function Fresh(n: nat, policy: Policy, cfg: Config): World {
    World(Start(n, policy, cfg), seq(n, _ => Actual(EMPTY, false, false)))
  }

  ghost function Run(w: World, events: seq<Event>, capacity: nat): (r: (World, seq<Report>))
    requires AllInRange(|w.fleet.replicas|, events)
    ensures |r.0.fleet.replicas| == |w.fleet.replicas|
    ensures r.0.fleet.policy == w.fleet.policy && r.0.fleet.cfg == w.fleet.cfg
    decreases |events|
  {
    if |events| == 0 then (w, [])
    else
      var (v, told) := Run(w, events[..|events| - 1], capacity);
      var e := events[|events| - 1];
      (Step(v, e, capacity), told + Told(v, e))
  }

  // What a request does when it is routed to r.
  lemma RequestEffect(w: World, n: nat, e: Event, capacity: nat)
    requires Shaped(w, n) && e.Request?
    ensures Target(w.fleet, e) == n ==>
              Step(w, e, capacity) == w && Told(w, e) == []
    ensures var r := Target(w.fleet, e);
            r < n ==>
              && Available(w.fleet, r)
              && Step(w, e, capacity)
                 == World(Admit(w.fleet, e.hashes, r),
                          w.actual[r := ActualStep(w.actual[r], w.fleet.replicas[r].cache, e, capacity)])
              && Told(w, e) ==
                 if e.delivered then
                   [Report(Decision(w.fleet, e.hashes, r).matchedBlocks, Lookup(w.actual[r].sim, e.hashes),
                           w.actual[r].behind, w.actual[r].strayed)]
                 else []
  {
    hide Routes, Serve, Lookup, Admit;
    PickIsExact(w.fleet, e.hashes);
    var o := Pick(w.fleet, e.hashes).1;
    if o.Routed? {
      PickRoutesTo(w.fleet, e.hashes, o.decision.replica);
    }
  }

  lemma FleetStaysSafe(f: Fleet, e: Event)
    requires Runs.Safe(f) && InRange(|f.replicas|, e)
    ensures Runs.Safe(FleetStep(f, e))
  {
    hide Runs.Safe, Runs.Step;
    match e
    case Request(hashes, _) => Runs.StepIsSafe(f, Runs.Request(hashes));
    case Arrived(_, _) =>
    case Completed(r) => Runs.StepIsSafe(f, Runs.Completed(r));
    case Lost(r, _) => Runs.StepIsSafe(f, Runs.Lost(r));
    case Readmitted(r) => Runs.StepIsSafe(f, Runs.Readmitted(r));
    case Restarted(_) =>
  }

  lemma StepIsShaped(w: World, n: nat, e: Event, capacity: nat)
    requires Shaped(w, n) && InRange(n, e)
    ensures Shaped(Step(w, e, capacity), n)
  {
    hide Runs.Step, FleetStep, Target, Serve, Sound, Runs.Safe;
    FleetStaysSafe(w.fleet, e);
    Recency.EmptyList();
    var r := Target(w.fleet, e);
    if r < n && (e.Request? || e.Arrived?) {
      ServeIsSound(w.actual[r].sim, e.hashes, capacity);
    }
  }

  // -------- never over-promising --------

  // The picture is a recency prefix of what the replica holds.
  ghost predicate Covered(c: Cache, a: Actual) {
    !a.behind ==> Recency.Order(c.stamps) <= Recency.Order(a.sim.stamps)
  }

  ghost predicate Conservative(w: World) {
    |w.fleet.replicas| == |w.actual| &&
    forall i :: 0 <= i < |w.actual| ==> Covered(w.fleet.replicas[i].cache, w.actual[i])
  }

  // No prediction exceeds what the replica finds, unless it is behind.
  predicate Honest(told: seq<Report>) {
    forall m :: m in told ==> !m.behind ==> m.predicted <= m.found
  }

  lemma ServeIsConservative(c: Cache, d: Cache, hashes: seq<Hash>, budget: nat, capacity: nat)
    requires Sound(c) && Sound(d) && Recency.Order(c.stamps) <= Recency.Order(d.stamps) && budget <= capacity
    ensures Recency.Order(Serve(c, hashes, budget).stamps) <= Recency.Order(Serve(d, hashes, capacity).stamps)
  {
    hide Sound, Serve, Recency.Order, Recency.Served;
    Recency.ServeRefines(c, hashes, budget);
    Recency.ServeRefines(d, hashes, capacity);
    CacheLaws.ServedInclusion(Recency.Order(c.stamps), Recency.Order(d.stamps), hashes, budget, capacity);
  }

  lemma RequestIsCovered(r: Replica, policy: Policy, cfg: Config, a: Actual, e: Event, capacity: nat)
    requires Runs.SafeReplica(r, policy, cfg) && Sound(a.sim) && Covered(r.cache, a)
    requires e.Request? && cfg.blockBudget <= capacity
    ensures Covered(if policy.RoundRobin? then r.cache else Serve(r.cache, e.hashes, cfg.blockBudget),
                    ActualStep(a, r.cache, e, capacity))
    ensures !a.behind ==> Lookup(r.cache, e.hashes) <= Lookup(a.sim, e.hashes)
  {
    hide Serve, Sound, Lookup, Recency.Order;
    if !a.behind {
      CacheLaws.LookupInclusion(r.cache, a.sim, e.hashes);
      ServeIsConservative(r.cache, a.sim, e.hashes, cfg.blockBudget, capacity);
      Recency.EmptyList();
    }
  }

  lemma RequestIsConservative(w: World, n: nat, e: Event, capacity: nat)
    requires Shaped(w, n) && Conservative(w) && w.fleet.cfg.blockBudget <= capacity && e.Request?
    ensures Conservative(Step(w, e, capacity))
    ensures Honest(Told(w, e))
  {
    hide Step, Told, Target, Serve, Sound, Lookup, ActualStep, Covered, Runs.SafeReplica;
    RequestEffect(w, n, e, capacity);
    var r := Target(w.fleet, e);
    if r < n {
      RequestIsCovered(w.fleet.replicas[r], w.fleet.policy, w.fleet.cfg, w.actual[r], e, capacity);
    }
  }

  lemma StepIsConservative(w: World, n: nat, e: Event, capacity: nat)
    requires Shaped(w, n) && Conservative(w) && w.fleet.cfg.blockBudget <= capacity
    requires InRange(n, e)
    ensures Conservative(Step(w, e, capacity))
    ensures Honest(Told(w, e))
  {
    hide Pick, Serve, Sound, Recency.Order, Runs.Safe;
    if e.Request? {
      RequestIsConservative(w, n, e, capacity);
    } else {
      Recency.EmptyList();
    }
  }

  // With a budget of at most the replicas' capacity, the router never
  // predicts a match that a replica which is not behind does not have, over
  // every run and under either policy: whatever is marked unhealthy, rightly
  // or wrongly, and whatever happened to it before its last reset.
  lemma {:induction false} NeverOverpromises(n: nat, policy: Policy, cfg: Config, events: seq<Event>, capacity: nat)
    requires AllInRange(n, events) && cfg.blockBudget <= capacity
    ensures var (w, told) := Run(Fresh(n, policy, cfg), events, capacity);
            Shaped(w, n) && Conservative(w) && Honest(told)
    decreases |events|
  {
    hide Shaped, Conservative, Step, Told;
    if |events| == 0 {
      FreshIsGood(n, policy, cfg);
    } else {
      var front, e := events[..|events| - 1], events[|events| - 1];
      NeverOverpromises(n, policy, cfg, front, capacity);
      var w := Run(Fresh(n, policy, cfg), front, capacity).0;
      assert e in events;
      StepIsConservative(w, n, e, capacity);
      StepIsShaped(w, n, e, capacity);
    }
  }

  lemma FreshIsGood(n: nat, policy: Policy, cfg: Config)
    ensures Shaped(Fresh(n, policy, cfg), n) && Conservative(Fresh(n, policy, cfg)) && Equal(Fresh(n, policy, cfg))
  {
    Runs.StartIsSafe(n, policy, cfg);
    Recency.EmptyList();
  }

  // -------- exact agreement --------

  // Equal maps, heaps, clocks and tickets.
  ghost predicate Equal(w: World) {
    |w.fleet.replicas| == |w.actual| &&
    forall i :: 0 <= i < |w.actual| ==> !w.actual[i].strayed ==> w.fleet.replicas[i].cache == w.actual[i].sim
  }

  // Predictions are what the replica finds, unless it has strayed.
  predicate Exact(told: seq<Report>) {
    forall m :: m in told ==> !m.strayed ==> m.predicted == m.found
  }

  lemma StepIsEqual(w: World, n: nat, e: Event, capacity: nat)
    requires Shaped(w, n) && Equal(w) && w.fleet.policy.CacheAware? && w.fleet.cfg.blockBudget == capacity
    requires InRange(n, e)
    ensures Equal(Step(w, e, capacity))
    ensures Exact(Told(w, e))
  {
    hide Pick, Serve, Sound, Lookup, Runs.Safe;
    if e.Request? {
      RequestEffect(w, n, e, capacity);
    }
  }

  // With the budget equal to the capacity, the picture of a replica that has
  // not strayed equals its cache in every field, and every prediction for it
  // is what it then finds.
  lemma {:induction false} PicturesAreExact(n: nat, cfg: Config, events: seq<Event>)
    requires AllInRange(n, events)
    ensures var (w, told) := Run(Fresh(n, CacheAware, cfg), events, cfg.blockBudget);
            Shaped(w, n) && Equal(w) && Exact(told)
    decreases |events|
  {
    hide Shaped, Equal, Step, Told;
    if |events| == 0 {
      FreshIsGood(n, CacheAware, cfg);
    } else {
      var front, e := events[..|events| - 1], events[|events| - 1];
      PicturesAreExact(n, cfg, front);
      var w := Run(Fresh(n, CacheAware, cfg), front, cfg.blockBudget).0;
      assert e in events;
      StepIsEqual(w, n, e, cfg.blockBudget);
      StepIsShaped(w, n, e, cfg.blockBudget);
    }
  }
}

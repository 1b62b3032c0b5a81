// When exactly the router's predictions can be relied on: which fleets,
// budgets and mishaps leave a run with a wrong one, and how late is too late.
module MirrorExactness {
  import opened LruCache
  import opened Routing
  import opened Mirror
  import Runs = SchedulerRuns
  import Recency
  import CacheLaws

  // What can make the router's picture of a replica wrong.
  datatype Mishap = RequestLost | CacheLost | ServedLate | WronglyMarked

  predicate Shows(e: Event, m: Mishap) {
    match m
    case RequestLost => e.Request? && !e.delivered
    case CacheLost => e.Restarted?
    case ServedLate => e.Arrived?
    case WronglyMarked => e.Lost? && !e.restarted
  }

  predicate Only(events: seq<Event>, allowed: set<Mishap>) {
    forall e, m :: e in events && Shows(e, m) ==> m in allowed
  }

  ghost function ToldBy(n: nat, policy: Policy, cfg: Config, capacity: nat, events: seq<Event>): seq<Report>
    requires AllInRange(n, events)
  {
    Run(Fresh(n, policy, cfg), events, capacity).1
  }

  // -------- mishaps are what puts replicas behind or astray --------

  // No request reached a replica that was behind.
  predicate InTime(told: seq<Report>) {
    forall m :: m in told ==> !m.behind
  }

  // No request reached a replica that had strayed.
  predicate OnTrack(told: seq<Report>) {
    forall m :: m in told ==> !m.strayed
  }

  ghost predicate NoneBehind(w: World, told: seq<Report>) {
    (forall a :: a in w.actual ==> !a.behind) && InTime(told)
  }

  ghost predicate NoneStrayed(w: World, told: seq<Report>) {
    (forall a :: a in w.actual ==> !a.strayed) && OnTrack(told)
  }

  lemma StepWithoutMishap(w: World, e: Event, capacity: nat)
    requires InRange(|w.fleet.replicas|, e)
    ensures NoneBehind(w, []) && (forall m :: Shows(e, m) ==> m.WronglyMarked?) ==>
              NoneBehind(Step(w, e, capacity), Told(w, e))
    ensures NoneStrayed(w, []) && (forall m :: !Shows(e, m)) ==> NoneStrayed(Step(w, e, capacity), Told(w, e))
  {
    hide FleetStep, Target, Serve, Lookup, Pick;
    assert Shows(e, RequestLost) <==> e.Request? && !e.delivered;
    assert Shows(e, CacheLost) <==> e.Restarted?;
    assert Shows(e, ServedLate) <==> e.Arrived?;
    assert Shows(e, WronglyMarked) <==> e.Lost? && !e.restarted;
  }

  lemma {:induction false} NoMishaps(n: nat, policy: Policy, cfg: Config, events: seq<Event>, capacity: nat, allowed: set<Mishap>)
    requires AllInRange(n, events) && Only(events, allowed) && allowed <= {WronglyMarked}
    ensures var (w, told) := Run(Fresh(n, policy, cfg), events, capacity);
            NoneBehind(w, told) && (allowed == {} ==> NoneStrayed(w, told))
    decreases |events|
  {
    hide Step, Told, Shows;
    if |events| > 0 {
      var front, e := events[..|events| - 1], events[|events| - 1];
      assert e in events;
      NoMishaps(n, policy, cfg, front, capacity, allowed);
      var w := Run(Fresh(n, policy, cfg), front, capacity).0;
      StepWithoutMishap(w, e, capacity);
    }
  }

  // -------- fleets that predict, hold or are told nothing --------

  lemma {:induction false} ToldInShape(n: nat, policy: Policy, cfg: Config, events: seq<Event>, capacity: nat)
    requires AllInRange(n, events)
    ensures Shaped(Run(Fresh(n, policy, cfg), events, capacity).0, n)
    decreases |events|
  {
    hide Shaped, Step, Told;
    if |events| == 0 {
      FreshIsGood(n, policy, cfg);
    } else {
      var front, e := events[..|events| - 1], events[|events| - 1];
      assert e in events;
      ToldInShape(n, policy, cfg, front, capacity);
      StepIsShaped(Run(Fresh(n, policy, cfg), front, capacity).0, n, e, capacity);
    }
  }

  lemma PredictsNothing(w: World, e: Event)
    requires Shaped(w, |w.fleet.replicas|) && InRange(|w.fleet.replicas|, e)
    requires Runs.NeverMatches(|w.fleet.replicas|, w.fleet.policy, w.fleet.cfg)
    ensures forall m :: m in Told(w, e) ==> m.predicted == 0
    ensures |w.fleet.replicas| == 0 || w.fleet.cfg.maxInflight == 0 ==> Told(w, e) == []
  {
    hide Pick, Lookup, Runs.Safe;
    if e.Request? {
      Runs.PickWithoutMatch(w.fleet, e.hashes);
      RequestEffect(w, |w.fleet.replicas|, e, 0);
    }
  }

  lemma {:induction false} NeverPredicts(n: nat, policy: Policy, cfg: Config, events: seq<Event>, capacity: nat)
    requires AllInRange(n, events) && Runs.NeverMatches(n, policy, cfg)
    ensures forall m :: m in ToldBy(n, policy, cfg, capacity, events) ==> m.predicted == 0
    ensures n == 0 || cfg.maxInflight == 0 ==> ToldBy(n, policy, cfg, capacity, events) == []
    decreases |events|
  {
    hide Step, Told, Shaped;
    if |events| > 0 {
      var front, e := events[..|events| - 1], events[|events| - 1];
      assert e in events;
      NeverPredicts(n, policy, cfg, front, capacity);
      ToldInShape(n, policy, cfg, front, capacity);
      PredictsNothing(Run(Fresh(n, policy, cfg), front, capacity).0, e);
    }
  }

  ghost predicate HoldsNothing(w: World) {
    forall a :: a in w.actual ==> a.sim.stamps == map[]
  }

  lemma StepHoldsNothing(w: World, n: nat, e: Event)
    requires Shaped(w, n) && HoldsNothing(w) && InRange(n, e)
    ensures HoldsNothing(Step(w, e, 0))
    ensures forall m :: m in Told(w, e) ==> m.found == 0
  {
    hide FleetStep, Target, Serve, Sound, Pick, Runs.Safe;
    var r := Target(w.fleet, e);
    if r < n {
      assert w.actual[r] in w.actual;
      if e.Request? || e.Arrived? {
        Recency.ServeRefines(w.actual[r].sim, e.hashes, 0);
      }
    }
  }

  lemma {:induction false} NeverFinds(n: nat, policy: Policy, cfg: Config, events: seq<Event>)
    requires AllInRange(n, events)
    ensures HoldsNothing(Run(Fresh(n, policy, cfg), events, 0).0)
    ensures forall m :: m in ToldBy(n, policy, cfg, 0, events) ==> m.found == 0
    decreases |events|
  {
    hide Step, Told, Shaped;
    if |events| > 0 {
      var front, e := events[..|events| - 1], events[|events| - 1];
      assert e in events;
      NeverFinds(n, policy, cfg, front);
      ToldInShape(n, policy, cfg, front, 0);
      StepHoldsNothing(Run(Fresh(n, policy, cfg), front, 0).0, n, e);
    }
  }

  // -------- runs on a single replica of a larger fleet --------

  // Replica 0 alone takes requests and is idle; the router's picture of it
  // is `picture` and it holds `sim`.
  ghost predicate Alone(w: World, n: nat, cfg: Config, picture: Cache, sim: Cache) {
    && Shaped(w, n) && n > 0
    && w.fleet.policy.CacheAware? && w.fleet.cfg == cfg
    && OnlyAvailable(w.fleet, 0)
    && w.fleet.replicas[0] == Replica(picture, 0, true) && w.actual[0].sim == sim
  }

  // A run that is followed step by step.
  ghost predicate Reaches(n: nat, cfg: Config, capacity: nat, events: seq<Event>, w: World, told: seq<Report>) {
    AllInRange(n, events) && Run(Fresh(n, CacheAware, cfg), events, capacity) == (w, told)
  }

  lemma Play(n: nat, cfg: Config, capacity: nat, front: seq<Event>, w: World, told: seq<Report>, e: Event)
    requires Reaches(n, cfg, capacity, front, w, told) && InRange(n, e)
    ensures |w.fleet.replicas| == n
    ensures Reaches(n, cfg, capacity, front + [e], Step(w, e, capacity), told + Told(w, e))
  {
    hide Step, Told;
    assert (front + [e])[..|front|] == front;
  }

  // The first k replicas after replica 0 have crashed and been marked.
  function Crashes(k: nat): seq<Event> {
    if k == 0 then [] else Crashes(k - 1) + [Lost(k, true)]
  }

  ghost predicate FirstLeft(w: World, n: nat, cfg: Config, k: nat) {
    && |w.fleet.replicas| == |w.actual| == n && n > 0
    && w.fleet.policy.CacheAware? && w.fleet.cfg == cfg
    && w.fleet.replicas[0] == Replica(EMPTY, 0, true) && w.actual[0].sim == EMPTY
    && forall i: nat :: 0 < i <= k ==> !Healthy(w.fleet, i)
  }

  lemma CrashNext(w: World, n: nat, cfg: Config, k: nat, capacity: nat)
    requires 0 < k < n && |w.fleet.replicas| == n && FirstLeft(w, n, cfg, k - 1)
    ensures FirstLeft(Step(w, Lost(k, true), capacity), n, cfg, k)
    ensures Told(w, Lost(k, true)) == []
  {
    var v := Step(w, Lost(k, true), capacity);
    forall i: nat | 0 < i <= k ensures !Healthy(v.fleet, i) {
      assert i < k ==> !Healthy(w.fleet, i);
    }
  }

  lemma {:induction false} AfterCrashes(n: nat, cfg: Config, capacity: nat, k: nat) returns (w: World)
    requires k < n
    ensures Reaches(n, cfg, capacity, Crashes(k), w, [])
    ensures FirstLeft(w, n, cfg, k)
    ensures Only(Crashes(k), {})
    decreases k
  {
    hide Step, Told;
    if k == 0 {
      w := Fresh(n, CacheAware, cfg);
    } else {
      var v := AfterCrashes(n, cfg, capacity, k - 1);
      Play(n, cfg, capacity, Crashes(k - 1), v, [], Lost(k, true));
      CrashNext(v, n, cfg, k, capacity);
      w := Step(v, Lost(k, true), capacity);
      assert [] + Told(v, Lost(k, true)) == [];
    }
  }

  lemma Isolate(n: nat, cfg: Config, capacity: nat) returns (w: World)
    requires n > 0 && cfg.maxInflight > 0
    ensures Reaches(n, cfg, capacity, Crashes(n - 1), w, [])
    ensures Alone(w, n, cfg, EMPTY, EMPTY)
    ensures Only(Crashes(n - 1), {})
  {
    hide Shaped;
    w := AfterCrashes(n, cfg, capacity, n - 1);
    ToldInShape(n, CacheAware, cfg, Crashes(n - 1), capacity);
  }

  // One request from pick to complete.
  lemma Ask(n: nat, cfg: Config, capacity: nat, front: seq<Event>, w: World, told: seq<Report>,
            picture: Cache, sim: Cache, chain: seq<Hash>, delivered: bool)
    returns (events: seq<Event>, v: World, reports: seq<Report>)
    requires Reaches(n, cfg, capacity, front, w, told) && Alone(w, n, cfg, picture, sim)
    ensures events == front + [Request(chain, delivered), Completed(0)]
    ensures Reaches(n, cfg, capacity, events, v, reports)
    ensures Alone(v, n, cfg, Serve(picture, chain, cfg.blockBudget), if delivered then Serve(sim, chain, capacity) else sim)
    ensures delivered ==>
              && |reports| > 0
              && reports[|reports| - 1].predicted == Lookup(picture, chain)
              && reports[|reports| - 1].found == Lookup(sim, chain)
  {
    hide Shaped, Serve, Lookup, Step, Told, Reaches;
    var e := Request(chain, delivered);
    AskEffect(w, n, cfg, picture, sim, e, capacity);
    Play(n, cfg, capacity, front, w, told, e);
    var u := Step(w, e, capacity);
    Play(n, cfg, capacity, front + [e], u, told + Told(w, e), Completed(0));
    events, v := front + [e, Completed(0)], Step(u, Completed(0), capacity);
    assert front + [e] + [Completed(0)] == events;
    reports := told + Told(w, e) + Told(u, Completed(0));
  }

  lemma AskEffect(w: World, n: nat, cfg: Config, picture: Cache, sim: Cache, e: Event, capacity: nat)
    requires Alone(w, n, cfg, picture, sim) && e.Request?
    ensures var u := Step(w, e, capacity);
            && |u.fleet.replicas| == n && Told(u, Completed(0)) == []
            && Alone(Step(u, Completed(0), capacity), n, cfg, Serve(picture, e.hashes, cfg.blockBudget),
                     if e.delivered then Serve(sim, e.hashes, capacity) else sim)
    ensures e.delivered ==>
              && |Told(w, e)| == 1
              && Told(w, e)[0].predicted == Lookup(picture, e.hashes) && Told(w, e)[0].found == Lookup(sim, e.hashes)
  {
    hide Sound, Runs.Safe, Serve, Lookup, Pick;
    RequestEffect(w, n, e, capacity);
    AloneIsTarget(w, n, e);
    StepIsShaped(w, n, e, capacity);
    var u := Step(w, e, capacity);
    StepIsShaped(u, n, Completed(0), capacity);
    var v := Step(u, Completed(0), capacity);
    forall i: nat | Available(v.fleet, i) ensures i == 0 {
      assert i != 0 ==> Available(w.fleet, i);
    }
  }

  lemma AloneIsTarget(w: World, n: nat, e: Event)
    requires Shaped(w, n) && n > 0 && OnlyAvailable(w.fleet, 0) && e.Request?
    ensures Target(w.fleet, e) == 0
  {
    hide Pick, Admit;
    OnlyAvailableIsChosen(w.fleet, e.hashes, 0);
  }

  // The router forgets replica 0, which keeps its cache, and readmits it.
  lemma Slander(n: nat, cfg: Config, capacity: nat, front: seq<Event>, w: World, told: seq<Report>,
                picture: Cache, sim: Cache)
    returns (events: seq<Event>, v: World, reports: seq<Report>)
    requires Reaches(n, cfg, capacity, front, w, told) && Alone(w, n, cfg, picture, sim)
    ensures events == front + [Lost(0, false), Readmitted(0)]
    ensures Reaches(n, cfg, capacity, events, v, reports) && Alone(v, n, cfg, EMPTY, sim)
  {
    hide Shaped, Serve, Lookup, Reaches;
    Play(n, cfg, capacity, front, w, told, Lost(0, false));
    var u := Step(w, Lost(0, false), capacity);
    StepIsShaped(w, n, Lost(0, false), capacity);
    Play(n, cfg, capacity, front + [Lost(0, false)], u, told + Told(w, Lost(0, false)), Readmitted(0));
    events, v := front + [Lost(0, false), Readmitted(0)], Step(u, Readmitted(0), capacity);
    StepIsShaped(u, n, Readmitted(0), capacity);
    assert front + [Lost(0, false)] + [Readmitted(0)] == events;
    reports := told + Told(w, Lost(0, false)) + Told(u, Readmitted(0));
    forall i: nat | Available(v.fleet, i) ensures i == 0 {
      assert i != 0 ==> Available(w.fleet, i);
    }
  }

  // Replica 0 loses its cache unmarked, or serves something out of turn.
  lemma Suffer(n: nat, cfg: Config, capacity: nat, front: seq<Event>, w: World, told: seq<Report>,
               picture: Cache, sim: Cache, e: Event)
    returns (events: seq<Event>, v: World, reports: seq<Report>)
    requires Reaches(n, cfg, capacity, front, w, told) && Alone(w, n, cfg, picture, sim)
    requires e == Restarted(0) || (e.Arrived? && e.replica == 0)
    ensures events == front + [e]
    ensures Reaches(n, cfg, capacity, events, v, reports)
    ensures Alone(v, n, cfg, picture, if e.Arrived? then Serve(sim, e.hashes, capacity) else EMPTY)
  {
    hide Sound, Runs.Safe, Serve, Lookup, Reaches;
    Play(n, cfg, capacity, front, w, told, e);
    StepIsShaped(w, n, e, capacity);
    events, v, reports := front + [e], Step(w, e, capacity), told + Told(w, e);
  }

  // What is found of a chain that was served once to an empty cache.
  lemma FoundAgain(chain: seq<Hash>, budget: nat)
    requires CacheLaws.Distinct(chain)
    ensures Lookup(Serve(EMPTY, chain, budget), chain) == if |chain| <= budget then |chain| else budget
  {
    hide Serve, Lookup, Sound;
    Recency.EmptyList();
    CacheLaws.ServedThenFound(EMPTY, chain, budget);
  }

  // What is found of a chain after another one has displaced it.
  lemma FoundDisplaced(c: Cache, chain: seq<Hash>, other: seq<Hash>, capacity: nat)
    requires Sound(c) && CacheLaws.Distinct(other) && |other| >= capacity
    requires |chain| > 0 && chain[0] !in other
    ensures Lookup(Serve(c, other, capacity), chain) == 0
  {
    hide Serve, Sound, Recency.Order, Recency.Without, Recency.Front;
    Recency.ServeRefines(c, other, capacity);
    CacheLaws.FrontOfDistinct(other);
    assert Recency.Order(Serve(c, other, capacity).stamps) == other[..capacity];
    LeadingIs(Serve(c, other, capacity).stamps.Keys, chain, 0);
  }

  // The last report of a run.
  predicate EndsWith(told: seq<Report>, predicted: nat, found: nat) {
    |told| > 0 && told[|told| - 1].predicted == predicted && told[|told| - 1].found == found
  }

  function AtMost(chain: seq<Hash>, limit: nat): nat {
    if |chain| <= limit then |chain| else limit
  }

  // A request for `chain`, delivered or not, then a delivered one.
  lemma AskTwice(n: nat, cfg: Config, capacity: nat, chain: seq<Hash>, delivered: bool) returns (events: seq<Event>)
    requires n > 0 && cfg.maxInflight > 0 && CacheLaws.Distinct(chain)
    ensures AllInRange(n, events) && Only(events, if delivered then {} else {RequestLost})
    ensures EndsWith(ToldBy(n, CacheAware, cfg, capacity, events),
                     AtMost(chain, cfg.blockBudget), if delivered then AtMost(chain, capacity) else 0)
  {
    hide Alone, Serve, Lookup, Run;
    var w := Isolate(n, cfg, capacity);
    var sim := if delivered then Serve(EMPTY, chain, capacity) else EMPTY;
    var once, v, told := Ask(n, cfg, capacity, Crashes(n - 1), w, [], EMPTY, EMPTY, chain, delivered);
    var twice, u, reports := Ask(n, cfg, capacity, once, v, told, Serve(EMPTY, chain, cfg.blockBudget), sim, chain, true);
    FoundAgain(chain, cfg.blockBudget);
    FoundAgain(chain, capacity);
    CacheLaws.NothingFound(chain);
    events := twice;
  }

  // A wrong mark between two requests.
  lemma AskSlandered(n: nat, cfg: Config, capacity: nat, chain: seq<Hash>) returns (events: seq<Event>)
    requires n > 0 && cfg.maxInflight > 0 && CacheLaws.Distinct(chain)
    ensures AllInRange(n, events) && Only(events, {WronglyMarked})
    ensures EndsWith(ToldBy(n, CacheAware, cfg, capacity, events), 0, AtMost(chain, capacity))
  {
    hide Alone, Serve, Lookup, Run;
    var w := Isolate(n, cfg, capacity);
    var picture, sim := Serve(EMPTY, chain, cfg.blockBudget), Serve(EMPTY, chain, capacity);
    var once, v, told := Ask(n, cfg, capacity, Crashes(n - 1), w, [], EMPTY, EMPTY, chain, true);
    var marked, u, reports := Slander(n, cfg, capacity, once, v, told, picture, sim);
    var twice, t, all := Ask(n, cfg, capacity, marked, u, reports, EMPTY, sim, chain, true);
    FoundAgain(chain, capacity);
    CacheLaws.NothingFound(chain);
    events := twice;
  }

  // An unmarked restart between two requests.
  lemma AskRestarted(n: nat, cfg: Config, capacity: nat, chain: seq<Hash>) returns (events: seq<Event>)
    requires n > 0 && cfg.maxInflight > 0 && CacheLaws.Distinct(chain)
    ensures AllInRange(n, events) && Only(events, {CacheLost})
    ensures EndsWith(ToldBy(n, CacheAware, cfg, capacity, events), AtMost(chain, cfg.blockBudget), 0)
  {
    hide Alone, Serve, Lookup, Run;
    var w := Isolate(n, cfg, capacity);
    var picture, sim := Serve(EMPTY, chain, cfg.blockBudget), Serve(EMPTY, chain, capacity);
    var once, v, told := Ask(n, cfg, capacity, Crashes(n - 1), w, [], EMPTY, EMPTY, chain, true);
    var lost, u, reports := Suffer(n, cfg, capacity, once, v, told, picture, sim, Restarted(0));
    var twice, t, all := Ask(n, cfg, capacity, lost, u, reports, picture, EMPTY, chain, true);
    FoundAgain(chain, cfg.blockBudget);
    CacheLaws.NothingFound(chain);
    events := twice;
  }

  // A chain the router has no picture of is served first.
  lemma AskServed(n: nat, cfg: Config, capacity: nat, chain: seq<Hash>) returns (events: seq<Event>)
    requires n > 0 && cfg.maxInflight > 0 && CacheLaws.Distinct(chain)
    ensures AllInRange(n, events) && Only(events, {ServedLate})
    ensures EndsWith(ToldBy(n, CacheAware, cfg, capacity, events), 0, AtMost(chain, capacity))
  {
    hide Alone, Serve, Lookup, Run;
    var w := Isolate(n, cfg, capacity);
    var late, v, told := Suffer(n, cfg, capacity, Crashes(n - 1), w, [], EMPTY, EMPTY, Arrived(0, chain));
    var once, u, reports := Ask(n, cfg, capacity, late, v, told, EMPTY, Serve(EMPTY, chain, capacity), chain, true);
    FoundAgain(chain, capacity);
    CacheLaws.NothingFound(chain);
    events := once;
  }

  // Another chain, served out of turn, displaces the first one.
  lemma AskDisplaced(n: nat, cfg: Config, capacity: nat, chain: seq<Hash>, other: seq<Hash>) returns (events: seq<Event>)
    requires n > 0 && cfg.maxInflight > 0 && CacheLaws.Distinct(chain)
    requires |chain| > 0 && |other| >= capacity && CacheLaws.Distinct(other) && chain[0] !in other
    ensures AllInRange(n, events) && Only(events, {ServedLate})
    ensures EndsWith(ToldBy(n, CacheAware, cfg, capacity, events), AtMost(chain, cfg.blockBudget), 0)
  {
    hide Alone, Serve, Lookup, Run, Sound;
    var w := Isolate(n, cfg, capacity);
    var picture, sim := Serve(EMPTY, chain, cfg.blockBudget), Serve(EMPTY, chain, capacity);
    var once, v, told := Ask(n, cfg, capacity, Crashes(n - 1), w, [], EMPTY, EMPTY, chain, true);
    var late, u, reports := Suffer(n, cfg, capacity, once, v, told, picture, sim, Arrived(0, other));
    var twice, t, all := Ask(n, cfg, capacity, late, u, reports, picture, Serve(sim, other, capacity), chain, true);
    Recency.EmptyList();
    ServeIsSound(EMPTY, chain, capacity);
    FoundDisplaced(sim, chain, other, capacity);
    FoundAgain(chain, cfg.blockBudget);
    CacheLaws.NothingFound(chain);
    events := twice;
  }

  // -------- the exact conditions --------

  predicate Overpromised(told: seq<Report>) {
    exists m :: m in told && m.predicted > m.found
  }

  predicate Mistaken(told: seq<Report>) {
    exists m :: m in told && m.predicted != m.found
  }

  lemma LastReport(told: seq<Report>, predicted: nat, found: nat)
    requires EndsWith(told, predicted, found)
    ensures predicted > found ==> Overpromised(told)
    ensures predicted != found ==> Mistaken(told)
  {
    assert told[|told| - 1] in told;
  }

  // Some run over-promises exactly when the fleet can match at all and either
  // a request may reach a replica that is behind, or the budget exceeds the
  // capacity. What was lost does no harm if the replica is marked before its
  // next request, nor does marking a good replica.
  lemma OverpromisesExactlyWhen(n: nat, policy: Policy, cfg: Config, capacity: nat, chain: seq<Hash>, late: bool)
    requires CacheLaws.Distinct(chain) && |chain| > capacity
    ensures (exists events :: AllInRange(n, events)
                              && (late || InTime(ToldBy(n, policy, cfg, capacity, events)))
                              && Overpromised(ToldBy(n, policy, cfg, capacity, events)))
       <==> !Runs.NeverMatches(n, policy, cfg) && (late || cfg.blockBudget > capacity)
  {
    forall events | AllInRange(n, events)
      ensures Runs.NeverMatches(n, policy, cfg) ==> !Overpromised(ToldBy(n, policy, cfg, capacity, events))
      ensures cfg.blockBudget <= capacity && InTime(ToldBy(n, policy, cfg, capacity, events)) ==>
                !Overpromised(ToldBy(n, policy, cfg, capacity, events))
    {
      NoOverpromise(n, policy, cfg, events, capacity);
    }
    hide ToldBy, InTime, Overpromised;
    if !Runs.NeverMatches(n, policy, cfg) && cfg.blockBudget > capacity {
      var events := AskTwice(n, cfg, capacity, chain, true);
      LastReport(ToldBy(n, policy, cfg, capacity, events), AtMost(chain, cfg.blockBudget), AtMost(chain, capacity));
      NoMishaps(n, policy, cfg, events, capacity, {});
      assert InTime(ToldBy(n, policy, cfg, capacity, events));
    } else if !Runs.NeverMatches(n, policy, cfg) && late {
      var events := AskTwice(n, cfg, capacity, chain, false);
      LastReport(ToldBy(n, policy, cfg, capacity, events), AtMost(chain, cfg.blockBudget), 0);
    }
  }

  lemma NoOverpromise(n: nat, policy: Policy, cfg: Config, events: seq<Event>, capacity: nat)
    requires AllInRange(n, events)
    ensures Runs.NeverMatches(n, policy, cfg) ==> !Overpromised(ToldBy(n, policy, cfg, capacity, events))
    ensures cfg.blockBudget <= capacity && InTime(ToldBy(n, policy, cfg, capacity, events)) ==>
              !Overpromised(ToldBy(n, policy, cfg, capacity, events))
  {
    if Runs.NeverMatches(n, policy, cfg) {
      NeverPredicts(n, policy, cfg, events, capacity);
    }
    if cfg.blockBudget <= capacity {
      NeverOverpromises(n, policy, cfg, events, capacity);
    }
  }

  // Which mishaps it takes: any but marking a good replica, alone.
  lemma MishapsThatOverpromise(n: nat, policy: Policy, cfg: Config, capacity: nat, chain: seq<Hash>, other: seq<Hash>,
                               allowed: set<Mishap>)
    requires CacheLaws.Distinct(chain) && |chain| > capacity
    requires CacheLaws.Distinct(other) && |other| >= capacity && chain[0] !in other
    ensures (exists events :: AllInRange(n, events) && Only(events, allowed)
                              && Overpromised(ToldBy(n, policy, cfg, capacity, events)))
       <==> !Runs.NeverMatches(n, policy, cfg) && (cfg.blockBudget > capacity || !(allowed <= {WronglyMarked}))
  {
    forall events | AllInRange(n, events) && Only(events, allowed)
      ensures Runs.NeverMatches(n, policy, cfg) || (cfg.blockBudget <= capacity && allowed <= {WronglyMarked}) ==>
                !Overpromised(ToldBy(n, policy, cfg, capacity, events))
    {
      NoOverpromise(n, policy, cfg, events, capacity);
      if allowed <= {WronglyMarked} {
        NoMishaps(n, policy, cfg, events, capacity, allowed);
      }
    }
    hide ToldBy, Overpromised, Only;
    if !Runs.NeverMatches(n, policy, cfg) && (cfg.blockBudget > capacity || !(allowed <= {WronglyMarked})) {
      var events := MishapRun(n, cfg, capacity, chain, other, allowed);
    }
  }

  lemma MishapRun(n: nat, cfg: Config, capacity: nat, chain: seq<Hash>, other: seq<Hash>, allowed: set<Mishap>)
    returns (events: seq<Event>)
    requires n > 0 && cfg.maxInflight > 0 && cfg.blockBudget > 0
    requires CacheLaws.Distinct(chain) && |chain| > capacity
    requires CacheLaws.Distinct(other) && |other| >= capacity && chain[0] !in other
    requires cfg.blockBudget > capacity || !(allowed <= {WronglyMarked})
    ensures AllInRange(n, events) && Only(events, allowed)
    ensures Overpromised(ToldBy(n, CacheAware, cfg, capacity, events))
  {
    hide ToldBy, Overpromised;
    var predicted := AtMost(chain, cfg.blockBudget);
    if cfg.blockBudget > capacity {
      events := AskTwice(n, cfg, capacity, chain, true);
      LastReport(ToldBy(n, CacheAware, cfg, capacity, events), predicted, AtMost(chain, capacity));
    } else {
      var m :| m in allowed && !m.WronglyMarked?;
      if m.RequestLost? {
        events := AskTwice(n, cfg, capacity, chain, false);
      } else if m.CacheLost? {
        events := AskRestarted(n, cfg, capacity, chain);
      } else {
        events := AskDisplaced(n, cfg, capacity, chain, other);
      }
      LastReport(ToldBy(n, CacheAware, cfg, capacity, events), predicted, 0);
    }
  }

  // Some prediction of some run is wrong exactly when requests can be routed
  // and budget and capacity differ, or are positive while a request may reach
  // a replica that has strayed.
  lemma MistakenExactlyWhen(n: nat, cfg: Config, capacity: nat, chain: seq<Hash>, astray: bool)
    requires CacheLaws.Distinct(chain) && |chain| > capacity && |chain| > cfg.blockBudget
    ensures (exists events :: AllInRange(n, events)
                              && (astray || OnTrack(ToldBy(n, CacheAware, cfg, capacity, events)))
                              && Mistaken(ToldBy(n, CacheAware, cfg, capacity, events)))
       <==> n > 0 && cfg.maxInflight > 0 && (cfg.blockBudget != capacity || (capacity > 0 && astray))
  {
    forall events | AllInRange(n, events)
      ensures n == 0 || cfg.maxInflight == 0 ==> !Mistaken(ToldBy(n, CacheAware, cfg, capacity, events))
      ensures cfg.blockBudget == capacity && (capacity == 0 || OnTrack(ToldBy(n, CacheAware, cfg, capacity, events))) ==>
                !Mistaken(ToldBy(n, CacheAware, cfg, capacity, events))
    {
      NoMistake(n, cfg, events, capacity);
    }
    hide ToldBy, OnTrack, Mistaken;
    if n > 0 && cfg.maxInflight > 0 && cfg.blockBudget != capacity {
      var events := AskTwice(n, cfg, capacity, chain, true);
      LastReport(ToldBy(n, CacheAware, cfg, capacity, events), AtMost(chain, cfg.blockBudget), AtMost(chain, capacity));
      NoMishaps(n, CacheAware, cfg, events, capacity, {});
      assert OnTrack(ToldBy(n, CacheAware, cfg, capacity, events));
    } else if n > 0 && cfg.maxInflight > 0 && capacity > 0 && astray {
      var events := AskTwice(n, cfg, capacity, chain, false);
      LastReport(ToldBy(n, CacheAware, cfg, capacity, events), AtMost(chain, cfg.blockBudget), 0);
    }
  }

  lemma NoMistake(n: nat, cfg: Config, events: seq<Event>, capacity: nat)
    requires AllInRange(n, events)
    ensures n == 0 || cfg.maxInflight == 0 ==> !Mistaken(ToldBy(n, CacheAware, cfg, capacity, events))
    ensures cfg.blockBudget == capacity && (capacity == 0 || OnTrack(ToldBy(n, CacheAware, cfg, capacity, events))) ==>
              !Mistaken(ToldBy(n, CacheAware, cfg, capacity, events))
  {
    if n == 0 || cfg.maxInflight == 0 {
      NeverPredicts(n, CacheAware, cfg, events, capacity);
    }
    if cfg.blockBudget == capacity == 0 {
      NeverPredicts(n, CacheAware, cfg, events, 0);
      NeverFinds(n, CacheAware, cfg, events);
    } else if cfg.blockBudget == capacity {
      PicturesAreExact(n, cfg, events);
    }
  }

  // Any mishap will do, alone.
  lemma MishapsThatMislead(n: nat, cfg: Config, capacity: nat, chain: seq<Hash>, allowed: set<Mishap>)
    requires CacheLaws.Distinct(chain) && |chain| > capacity && |chain| > cfg.blockBudget
    ensures (exists events :: AllInRange(n, events) && Only(events, allowed)
                              && Mistaken(ToldBy(n, CacheAware, cfg, capacity, events)))
       <==> n > 0 && cfg.maxInflight > 0 && (cfg.blockBudget != capacity || (capacity > 0 && allowed != {}))
  {
    forall events | AllInRange(n, events) && Only(events, allowed)
      ensures n == 0 || cfg.maxInflight == 0 || (cfg.blockBudget == capacity && (capacity == 0 || allowed == {})) ==>
                !Mistaken(ToldBy(n, CacheAware, cfg, capacity, events))
    {
      NoMistake(n, cfg, events, capacity);
      if allowed == {} {
        NoMishaps(n, CacheAware, cfg, events, capacity, allowed);
      }
    }
    hide ToldBy, Mistaken, Only;
    if n > 0 && cfg.maxInflight > 0 && (cfg.blockBudget != capacity || (capacity > 0 && allowed != {})) {
      var events := MisleadingRun(n, cfg, capacity, chain, allowed);
    }
  }

  lemma MisleadingRun(n: nat, cfg: Config, capacity: nat, chain: seq<Hash>, allowed: set<Mishap>)
    returns (events: seq<Event>)
    requires n > 0 && cfg.maxInflight > 0
    requires CacheLaws.Distinct(chain) && |chain| > capacity && |chain| > cfg.blockBudget
    requires cfg.blockBudget != capacity || (capacity > 0 && allowed != {})
    ensures AllInRange(n, events) && Only(events, allowed)
    ensures Mistaken(ToldBy(n, CacheAware, cfg, capacity, events))
  {
    hide ToldBy, Mistaken;
    if cfg.blockBudget != capacity {
      events := AskTwice(n, cfg, capacity, chain, true);
      LastReport(ToldBy(n, CacheAware, cfg, capacity, events), AtMost(chain, cfg.blockBudget), AtMost(chain, capacity));
    } else {
      var m :| m in allowed;
      if m.RequestLost? || m.CacheLost? {
        if m.RequestLost? {
          events := AskTwice(n, cfg, capacity, chain, false);
        } else {
          events := AskRestarted(n, cfg, capacity, chain);
        }
        LastReport(ToldBy(n, CacheAware, cfg, capacity, events), AtMost(chain, cfg.blockBudget), 0);
      } else {
        if m.ServedLate? {
          events := AskServed(n, cfg, capacity, chain);
        } else {
          events := AskSlandered(n, cfg, capacity, chain);
        }
        LastReport(ToldBy(n, CacheAware, cfg, capacity, events), 0, AtMost(chain, capacity));
      }
    }
  }
}

// When the heap stays within a constant multiple of the blocks: always,
// where every insert is followed by an eviction as the scheduler does it;
// and after an eviction of any other state, exactly when few of the stale
// entries lie behind the last evicted block.
module HeapBounds {
  import opened LruCache
  import opened Recency
  import opened Routing
  import opened HeapCost
  import CacheLaws
  import Runs = SchedulerRuns

  // -------- insert, then evict --------

  // Every block that leaves takes an entry with it.
  lemma {:induction false} EvictionShrinksHeap(c: Cache, budget: nat)
    ensures |EvictTo(c, budget).stamps| <= |c.stamps|
    ensures |EvictTo(c, budget).heap| + |c.stamps| <= |c.heap| + |EvictTo(c, budget).stamps|
    decreases |c.heap|
  {
    hide PopOne;
    if |c.stamps| > budget && c.heap != multiset{} {
      PopTakesAtMostOne(c);
      EvictionShrinksHeap(PopOne(c), budget);
    }
  }

  lemma PopTakesAtMostOne(c: Cache)
    requires c.heap != multiset{}
    ensures |c.stamps| - 1 <= |PopOne(c).stamps| <= |c.stamps|
  {
    hide IsTop;
    var h := Top(c.heap).hash;
    assert (c.stamps - {h}).Keys == c.stamps.Keys - {h};
    assert |c.stamps.Keys - {h}| >= |c.stamps.Keys| - 1;
  }

  lemma {:induction false} TouchAddsAtMost(c: Cache, hashes: seq<Hash>)
    ensures |c.stamps.Keys + SetOf(hashes)| <= |c.stamps| + |hashes|
    decreases |hashes|
  {
    if |hashes| == 0 {
      assert c.stamps.Keys + SetOf(hashes) == c.stamps.Keys;
    } else {
      var front, last := hashes[..|hashes| - 1], hashes[|hashes| - 1];
      TouchAddsAtMost(c, front);
      assert hashes == front + [last];
      assert c.stamps.Keys + SetOf(hashes) == c.stamps.Keys + SetOf(front) + {last};
    }
  }

  lemma TouchIsBounded(c: Cache, hashes: seq<Hash>)
    ensures |Touch(c, hashes).heap| <= 2 * Max(|Touch(c, hashes).stamps|, 1024)
  {
    TouchIsPaid(Work(|c.heap|, 0, 0, 0, 0), c, hashes);
  }

  lemma ChainFits(c: Cache, hashes: seq<Hash>)
    requires CacheLaws.Distinct(hashes)
    ensures |hashes| <= |Touch(c, hashes).stamps|
  {
    hide Touch;
    TouchStamps(c, hashes);
    CountNew({}, hashes, 0);
    assert {} + SetOf(hashes) == SetOf(hashes) <= Touch(c, hashes).stamps.Keys;
    Fits(SetOf(hashes), Touch(c, hashes).stamps.Keys);
    assert |Touch(c, hashes).stamps| == |Touch(c, hashes).stamps.Keys|;
  }

  lemma Fits(some: set<Hash>, all: set<Hash>)
    requires some <= all
    ensures |some| <= |all|
  {
    assert all == some + (all - some);
  }

  // After an insert and its eviction the heap exceeds the bound by no more
  // than what was evicted, which is no more than the chain's length.
  lemma ServeKeepsHeapBound(c: Cache, hashes: seq<Hash>, budget: nat)
    requires Sound(c) && |c.stamps| <= budget
    ensures var d := Serve(c, hashes, budget);
            |d.heap| <= 2 * Max(|d.stamps|, 1024) + |hashes|
  {
    hide Touch, EvictTo, Sound, SetOf, Order;
    var t, d := Touch(c, hashes), Serve(c, hashes, budget);
    TouchIsBounded(c, hashes);
    EvictionShrinksHeap(t, budget);
    TouchStamps(c, hashes);
    TouchAddsAtMost(c, hashes);
    assert |t.stamps| == |t.stamps.Keys|;
    TouchIsSound(c, hashes);
    EvictRefines(t, budget);
  }

  // So for chains of distinct blocks that fit the budget the documented bound
  // holds outright, with the constant 3.
  lemma ServeKeepsHeapWithinBlocks(c: Cache, hashes: seq<Hash>, budget: nat)
    requires Sound(c) && |c.stamps| <= budget
    requires CacheLaws.Distinct(hashes) && |hashes| <= budget
    ensures var d := Serve(c, hashes, budget);
            |d.heap| <= 3 * Max(|d.stamps|, 1024)
  {
    hide Touch, EvictTo, Sound, SetOf, Order;
    ServeKeepsHeapBound(c, hashes, budget);
    ChainFits(c, hashes);
    TouchIsSound(c, hashes);
    EvictRefines(Touch(c, hashes), budget);
  }

  predicate ChainsWithin(events: seq<Runs.Event>, limit: nat) {
    forall e :: e in events && e.Request? ==> |e.hashes| <= limit
  }

  ghost predicate HeapsBounded(f: Fleet, limit: nat) {
    forall i :: 0 <= i < |f.replicas| ==>
      |f.replicas[i].cache.heap| <= 2 * Max(|f.replicas[i].cache.stamps|, 1024) + limit
  }

  lemma StepKeepsHeapsBounded(f: Fleet, e: Runs.Event, limit: nat)
    requires Runs.Safe(f) && Runs.InRange(|f.replicas|, e) && HeapsBounded(f, limit)
    requires e.Request? ==> |e.hashes| <= limit
    ensures HeapsBounded(Runs.Step(f, e), limit)
  {
    hide Routes, Serve, Sound;
    if e.Request? {
      PickIsExact(f, e.hashes);
      var o := Pick(f, e.hashes).1;
      if o.Routed? {
        PickRoutesTo(f, e.hashes, o.decision.replica);
        assert Runs.SafeReplica(f.replicas[o.decision.replica], f.policy, f.cfg);
        ServeKeepsHeapBound(f.replicas[o.decision.replica].cache, e.hashes, f.cfg.blockBudget);
      }
    }
  }

  // In every state the scheduler can reach, each replica's heap is within
  // twice its blocks (or the floor) plus the longest chain requested.
  lemma {:induction false} SchedulerHeapsAreBounded(n: nat, policy: Policy, cfg: Config, events: seq<Runs.Event>, limit: nat)
    requires Runs.AllInRange(n, events) && ChainsWithin(events, limit)
    ensures HeapsBounded(Runs.Run(Start(n, policy, cfg), events), limit)
    decreases |events|
  {
    hide Runs.Step, Runs.Safe;
    var f := Start(n, policy, cfg);
    if |events| > 0 {
      var front, e := events[..|events| - 1], events[|events| - 1];
      assert e in events;
      SchedulerHeapsAreBounded(n, policy, cfg, front, limit);
      Runs.StartIsSafe(n, policy, cfg);
      Runs.RunIsSafe(f, front);
      StepKeepsHeapsBounded(Runs.Run(f, front), e, limit);
    }
  }

  // -------- eviction of any reachable state --------

  // The entry whose pop makes the blocks fit the budget.
  ghost function Pivot(c: Cache, budget: nat): Entry
    requires budget < |c.stamps|
  {
    EntryOf(c.stamps, Order(c.stamps)[budget])
  }

  ghost function Later(heap: multiset<Entry>, pivot: Entry): set<Entry> {
    set e | e in heap && PopsBefore(pivot, e)
  }

  // A pop over budget is at most the pivot, and is the pivot's own if it
  // makes the blocks fit.
  lemma PopReachesPivot(c: Cache, budget: nat)
    requires Tidy(c) && budget < |c.stamps|
    ensures c.heap != multiset{}
    ensures Top(c.heap) == Pivot(c, budget) || PopsBefore(Top(c.heap), Pivot(c, budget))
    ensures var d := PopOne(c);
            if |d.stamps| > budget then Pivot(d, budget) == Pivot(c, budget) else Top(c.heap) == Pivot(c, budget)
  {
    hide IsVictim, Order, Sound, PopOne;
    PivotIsLive(c, budget);
    PopEvicts(c);
    if PopOne(c).stamps != c.stamps {
      var v :| IsVictim(c.stamps, v) && PopOne(c).stamps == c.stamps - {v};
      VictimShortensOrder(c.stamps, v);
      PopIs(c, Top(c.heap));
      LastIsVictim(c.stamps, v);
    }
  }

  lemma PivotIsLive(c: Cache, budget: nat)
    requires Sound(c) && budget < |c.stamps|
    ensures Pivot(c, budget) in c.heap
  {
  }

  lemma LastIsVictim(stamps: map<Hash, Stamp>, v: Hash)
    requires IsVictim(stamps, v) && |stamps| > 0
    ensures Order(stamps)[|stamps| - 1] == v
  {
    LastOfOrder(stamps);
    VictimIsUnique(stamps, v, Order(stamps)[|stamps| - 1]);
  }

  // Eviction leaves exactly the entries that pop after the pivot.
  lemma {:induction false} EvictionLeavesLater(c: Cache, budget: nat)
    requires Tidy(c) && budget < |c.stamps|
    ensures EvictTo(c, budget).heap == multiset(Later(c.heap, Pivot(c, budget)))
    decreases |c.heap|
  {
    hide Pivot, Sound, Order;
    PopReachesPivot(c, budget);
    var d, pivot := PopOne(c), Pivot(c, budget);
    PopIsSound(c);
    if |d.stamps| > budget {
      EvictionLeavesLater(d, budget);
      assert Later(d.heap, pivot) == Later(c.heap, pivot);
    } else {
      assert EvictTo(d, budget) == d;
      assert d.heap == multiset(Later(c.heap, pivot));
    }
  }

  // The superseded entries that eviction does not reach.
  ghost function LaterStale(c: Cache, budget: nat): set<Entry>
    requires budget < |c.stamps|
  {
    Later(StaleEntries(c), Pivot(c, budget))
  }

  // A block is kept exactly when its entry pops after the pivot.
  lemma KeptIsLater(c: Cache, budget: nat, h: Hash)
    requires Sound(c) && budget < |c.stamps| && h in c.stamps
    ensures h in EvictTo(c, budget).stamps <==> PopsBefore(Pivot(c, budget), EntryOf(c.stamps, h))
  {
    hide EvictTo, Sound, Order, PopsBefore;
    var order := Order(c.stamps);
    EvictRefines(c, budget);
    OrderIsRanked(c.stamps);
    var i :| 0 <= i < |order| && order[i] == h;
    if i < budget {
      assert order[..budget][i] == h;
      assert Outranks(c.stamps, order[i], order[budget]);
    } else {
      NotBefore(c.stamps, order, budget, i);
      assert forall j :: 0 <= j < budget ==> order[j] != order[i];
      assert h !in order[..budget];
    }
  }

  lemma NotBefore(stamps: map<Hash, Stamp>, order: seq<Hash>, k: nat, i: nat)
    requires Ranked(stamps, order) && k <= i < |order|
    ensures !PopsBefore(EntryOf(stamps, order[k]), EntryOf(stamps, order[i]))
    ensures forall j :: 0 <= j < k ==> order[j] != order[i]
  {
    assert k < i ==> Outranks(stamps, order[k], order[i]);
    forall j | 0 <= j < k ensures order[j] != order[i] {
      assert Outranks(stamps, order[j], order[i]);
    }
  }

  lemma {:induction false} EvictionKeepsStamps(c: Cache, budget: nat)
    ensures forall h :: h in EvictTo(c, budget).stamps ==> h in c.stamps && EvictTo(c, budget).stamps[h] == c.stamps[h]
    decreases |c.heap|
  {
    hide IsTop;
    if |c.stamps| > budget && c.heap != multiset{} {
      EvictionKeepsStamps(PopOne(c), budget);
    }
  }

  lemma StaleAfterEviction(c: Cache, budget: nat)
    requires Tidy(c) && budget < |c.stamps|
    ensures StaleEntries(EvictTo(c, budget)) == multiset(LaterStale(c, budget))
  {
    hide EvictTo, Sound, Order, PopsBefore, Pivot, StaleEntries;
    var d := EvictTo(c, budget);
    EvictIsTidy(c, budget);
    EvictionLeavesLater(c, budget);
    EvictionKeepsStamps(c, budget);
    StaleEntriesAreTheExcess(c);
    StaleEntriesAreTheExcess(d);
    StaleOnce(d);
    forall e ensures e in StaleEntries(d) <==> e in LaterStale(c, budget) {
      if e.hash in c.stamps && EntryOf(c.stamps, e.hash) == e {
        KeptIsLater(c, budget, e.hash);
      }
    }
    assert StaleEntries(d) == multiset(LaterStale(c, budget));
  }

  lemma StaleOnce(c: Cache)
    requires Tidy(c)
    ensures forall e :: StaleEntries(c)[e] <= 1
  {
  }

  // The exact size of the heap after an eviction, and so the exact condition
  // on the state before it for the bound to hold.
  lemma EvictedHeapSize(c: Cache, budget: nat)
    requires Tidy(c) && budget < |c.stamps|
    ensures |EvictTo(c, budget).heap| == budget + |LaterStale(c, budget)|
    ensures |EvictTo(c, budget).heap| <= 2 * Max(budget, 1024) <==> |LaterStale(c, budget)| <= 2 * Max(budget, 1024) - budget
  {
    hide EvictTo, Order, LaterStale, StaleEntries, Tidy;
    StaleAfterEviction(c, budget);
    EvictIsTidy(c, budget);
    StaleEntriesAreTheExcess(EvictTo(c, budget));
    TidyIsSound(c);
    EvictRefines(c, budget);
  }

  lemma TidyIsSound(c: Cache)
    requires Tidy(c)
    ensures Sound(c)
  {
  }
}

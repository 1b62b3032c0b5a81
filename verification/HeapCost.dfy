// The lazy heap's cost and contents: amortisation over runs, the heap bound
// after a touch, and what the stale entries are.
module HeapCost {
  import opened LruCache
  import opened CacheLaws

  // Entries pushed, popped, dropped by compactions; blocks re-pushed by
  // compactions; and the number of compactions.
  datatype Work = Work(pushes: nat, pops: nat, dropped: nat, rebuilt: nat, compactions: nat)

  function TouchWork(w: Work, c: Cache, hashes: seq<Hash>): Work {
    var d := TouchBlocks(c.(clock := c.clock + 1), hashes, c.clock + 1);
    var pushed := w.(pushes := w.pushes + |hashes|);
    if Bloated(d) then
      pushed.(dropped := w.dropped + |d.heap| - |d.stamps|,
              rebuilt := w.rebuilt + |d.stamps|,
              compactions := w.compactions + 1)
    else pushed
  }

  ghost function WorkOf(ops: seq<Op>): Work {
    if |ops| == 0 then Work(0, 0, 0, 0, 0)
    else
      var front := ops[..|ops| - 1];
      var c, w := RunCache(front).0, WorkOf(front);
      match ops[|ops| - 1]
      case Insert(chain) => TouchWork(w, c, chain)
      case Match(chain) => TouchWork(w, c, chain[..Lookup(c, chain)])
      case Peek(_) => w
      case Evict(budget) => w.(pops := w.pops + EvictPops(c, budget))
  }

  ghost predicate Paid(w: Work, heapSize: nat) {
    && w.pushes == w.pops + w.dropped + heapSize
    && w.rebuilt + w.compactions <= w.dropped
    && 1025 * w.compactions <= w.dropped
  }

  lemma TouchIsPaid(w: Work, c: Cache, hashes: seq<Hash>)
    requires Paid(w, |c.heap|)
    ensures Paid(TouchWork(w, c, hashes), |Touch(c, hashes).heap|)
    ensures |Touch(c, hashes).heap| <= 2 * Max(|Touch(c, hashes).stamps|, 1024)
    ensures var d, v := Touch(c, hashes), TouchWork(w, c, hashes);
            && v.pushes == w.pushes + |hashes| && v.pops == w.pops
            && if |c.heap| + |hashes| > 2 * Max(|d.stamps|, 1024)
               then |d.heap| == |d.stamps| && v.rebuilt == w.rebuilt + |d.heap| && v.compactions == w.compactions + 1
                    && v.dropped == w.dropped + |c.heap| + |hashes| - |d.heap|
               else |d.heap| == |c.heap| + |hashes|
                    && v.rebuilt == w.rebuilt && v.compactions == w.compactions && v.dropped == w.dropped
  {
    hide TouchBlocks, HeapOf;
    var b := c.(clock := c.clock + 1);
    TouchBlocksFacts(b, hashes, b.clock);
    HeapOfSize(TouchBlocks(b, hashes, b.clock).stamps);
  }

  lemma {:induction false} EvictIsPaid(c: Cache, budget: nat)
    ensures |c.heap| == EvictPops(c, budget) + |EvictTo(c, budget).heap|
    decreases |c.heap|
  {
    if |c.stamps| > budget && c.heap != multiset{} {
      EvictIsPaid(PopOne(c), budget);
    }
  }

  // Over every run, each pushed entry is popped once, dropped by a
  // compaction, or still in the heap; compactions rebuild fewer blocks than
  // they drop entries, and each drops more than 1024 of them. So
  // all pops and all rebuilding together stay below the pushes.
  lemma {:induction false} WorkIsAmortised(ops: seq<Op>)
    ensures Paid(WorkOf(ops), |RunCache(ops).0.heap|)
    decreases |ops|
  {
    hide Touch, TouchWork, EvictTo, EvictPops;
    if |ops| > 0 {
      var front := ops[..|ops| - 1];
      WorkIsAmortised(front);
      var c, w := RunCache(front).0, WorkOf(front);
      match ops[|ops| - 1]
      case Insert(chain) =>
        TouchIsPaid(w, c, chain);
      case Match(chain) =>
        TouchIsPaid(w, c, chain[..Lookup(c, chain)]);
      case Peek(chain) =>
      case Evict(budget) =>
        EvictIsPaid(c, budget);
    }
  }

  // -------- a late eviction can leave the heap behind --------

  // One cold chain, then k hits on a hot block.
  function Burst(cold: seq<Hash>, hot: Hash, k: nat): seq<Op> {
    if k == 0 then [Insert(cold)] else Burst(cold, hot, k - 1) + [Insert([hot])]
  }

  // Every entry of the first tick is live, once, and no other block is cold.
  ghost predicate ColdAreLive(c: Cache, hot: Hash) {
    && AllLive(c)
    && (forall e :: e in c.heap ==> e.access >= 1)
    && (forall e :: e in c.heap && e.access == 1 ==>
          c.heap[e] == 1 && e.hash != hot && e.hash in c.stamps && EntryOf(c.stamps, e.hash) == e)
    && (forall h :: h in c.stamps && h != hot ==> c.stamps[h].access == 1)
  }

  lemma ColdBlock(c: Cache, h: Hash, hot: Hash)
    requires ColdAreLive(c, hot) && h !in c.stamps && h != hot
    ensures ColdAreLive(TouchBlock(c, h, 1), hot)
  {
    TouchBlockLive(c, h, 1);
    assert Entry(1, c.ticket + 1, h) !in c.heap;
  }

  lemma HotBlock(c: Cache, hot: Hash, access: nat)
    requires ColdAreLive(c, hot) && access > 1
    ensures ColdAreLive(TouchBlock(c, hot, access), hot)
  {
    TouchBlockLive(c, hot, access);
  }

  lemma {:induction false} ColdTick(c: Cache, cold: seq<Hash>, hot: Hash)
    requires c.stamps == map[] && c.heap == multiset{} && Distinct(cold) && hot !in cold
    ensures ColdAreLive(TouchBlocks(c, cold, 1), hot)
    decreases |cold|
  {
    hide TouchBlock;
    if |cold| > 0 {
      var front, last := cold[..|cold| - 1], cold[|cold| - 1];
      ColdTick(c, front, hot);
      TouchBlocksFacts(c, front, 1);
      assert last !in front;
      hide ColdAreLive;
      ColdBlock(TouchBlocks(c, front, 1), last, hot);
    }
  }

  lemma SetOfDistinct(cold: seq<Hash>, hot: Hash)
    requires Distinct(cold) && hot !in cold
    ensures |SetOf(cold)| == |cold| && |SetOf(cold) + {hot}| == |cold| + 1
  {
    CountNew({}, cold, 0);
    assert {} + SetOf(cold) == SetOf(cold);
  }

  lemma TouchWithoutCompaction(c: Cache, hashes: seq<Hash>)
    requires |c.heap| + |hashes| <= 2 * |c.stamps.Keys + SetOf(hashes)|
    ensures Touch(c, hashes) == TouchBlocks(c.(clock := c.clock + 1), hashes, c.clock + 1)
    ensures |Touch(c, hashes).heap| == |c.heap| + |hashes|
    ensures Touch(c, hashes).stamps.Keys == c.stamps.Keys + SetOf(hashes)
  {
    hide TouchBlocks, HeapOf, SetOf, Touch;
    TouchStamps(c, hashes);
    TouchIs(c, hashes);
    HeapGrows(c.(clock := c.clock + 1), hashes, c.clock + 1);
    var d := TouchBlocks(c.(clock := c.clock + 1), hashes, c.clock + 1);
    assert |d.stamps| == |d.stamps.Keys|;
  }

  lemma HeapGrows(c: Cache, hashes: seq<Hash>, access: nat)
    ensures |TouchBlocks(c, hashes, access).heap| == |c.heap| + |hashes|
  {
    TouchBlocksFacts(c, hashes, access);
  }

  lemma FirstBurst(cold: seq<Hash>, hot: Hash)
    requires Distinct(cold) && hot !in cold
    ensures var c := RunCache([Insert(cold)]).0;
            ColdAreLive(c, hot) && c.clock == 1 && |c.heap| == |cold| && c.stamps.Keys == SetOf(cold)
  {
    hide ColdAreLive, Distinct, SetOf, Touch, TouchBlocks;
    assert [Insert(cold)][..0] == [];
    assert RunCache([Insert(cold)]).0 == Touch(EMPTY, cold);
    SetOfDistinct(cold, hot);
    assert EMPTY.stamps.Keys + SetOf(cold) == SetOf(cold);
    TouchWithoutCompaction(EMPTY, cold);
    TouchStamps(EMPTY, cold);
    ColdTick(EMPTY.(clock := 1), cold, hot);
  }

  lemma HotTouch(c: Cache, hot: Hash)
    requires ColdAreLive(c, hot) && c.clock >= 1
    requires |c.heap| + 1 <= 2 * |c.stamps.Keys + {hot}|
    ensures var d := Touch(c, [hot]);
            && ColdAreLive(d, hot) && d.clock == c.clock + 1
            && |d.heap| == |c.heap| + 1
            && d.stamps.Keys == c.stamps.Keys + {hot}
  {
    hide ColdAreLive, Touch, TouchBlock, TouchBlocks;
    var b := c.(clock := c.clock + 1);
    ColdAtNextTick(c, hot);
    assert SetOf([hot]) == {hot};
    TouchWithoutCompaction(c, [hot]);
    TouchStamps(c, [hot]);
    TouchSingle(b, hot, b.clock);
    HotBlock(b, hot, b.clock);
  }

  lemma ColdAtNextTick(c: Cache, hot: Hash)
    requires ColdAreLive(c, hot)
    ensures ColdAreLive(c.(clock := c.clock + 1), hot)
  {
  }

  lemma TouchSingle(c: Cache, h: Hash, access: nat)
    ensures TouchBlocks(c, [h], access) == TouchBlock(c, h, access)
  {
    assert [h][..0] == [];
  }

  lemma BurstState(cold: seq<Hash>, hot: Hash, k: nat)
    requires Distinct(cold) && hot !in cold && k <= |cold|
    ensures var c := RunCache(Burst(cold, hot, k)).0;
            && ColdAreLive(c, hot) && c.clock == k + 1
            && |c.heap| == |cold| + k
            && c.stamps.Keys == SetOf(cold) + if k == 0 then {} else {hot}
    decreases k
  {
    hide ColdAreLive, Distinct, Touch, SetOf;
    SetOfDistinct(cold, hot);
    if k == 0 {
      FirstBurst(cold, hot);
    } else {
      var front := Burst(cold, hot, k - 1);
      BurstState(cold, hot, k - 1);
      var c := RunCache(front).0;
      assert c.stamps.Keys + {hot} == SetOf(cold) + {hot};
      HotTouch(c, hot);
      assert (front + [Insert([hot])])[..|front|] == front;
    }
  }

  // Each pop while cold blocks remain evicts one of them.
  lemma {:induction false} DrainCold(c: Cache, hot: Hash)
    requires ColdAreLive(c, hot) && hot in c.stamps
    ensures EvictPops(c, 1) == |c.stamps| - 1
    ensures |EvictTo(c, 1).stamps| == 1
    decreases |c.heap|
  {
    assert hot in c.stamps.Keys;
    if |c.stamps| > 1 {
      assert |c.stamps.Keys - {hot}| == |c.stamps| - 1;
      var other :| other in c.stamps.Keys - {hot};
      assert EntryOf(c.stamps, other) in c.heap;
      var e := Top(c.heap);
      assert e.access == 1;
      PopColdKeeps(c, hot);
      DrainCold(PopOne(c), hot);
    }
  }

  lemma PopColdKeeps(c: Cache, hot: Hash)
    requires ColdAreLive(c, hot) && hot in c.stamps && c.heap != multiset{} && Top(c.heap).access == 1
    ensures ColdAreLive(PopOne(c), hot) && hot in PopOne(c).stamps
    ensures |PopOne(c).stamps| == |c.stamps| - 1
  {
    var e, d := Top(c.heap), PopOne(c);
    assert d.stamps == c.stamps - {e.hash};
    forall h | h in d.stamps ensures EntryOf(d.stamps, h) in d.heap {
      assert EntryOf(c.stamps, h) in c.heap && EntryOf(c.stamps, h) != e;
    }
    assert d.stamps.Keys == c.stamps.Keys - {e.hash};
  }

  // When inserts are not each followed by their eviction, no constant multiple
  // of `num_blocks()` bounds the heap: one late eviction can leave a single
  // block with as many stale entries as the evicted chain was long.
  lemma HeapCanOutgrowBlocks(cold: seq<Hash>, hot: Hash)
    requires Distinct(cold) && hot !in cold && |cold| > 0
    ensures var c := RunCache(Burst(cold, hot, |cold|) + [Evict(1)]).0;
            |c.stamps| == 1 && |c.heap| == |cold|
  {
    var front := Burst(cold, hot, |cold|);
    var ops := front + [Evict(1)];
    assert ops[..|ops| - 1] == front;
    BurstState(cold, hot, |cold|);
    var c := RunCache(front).0;
    DrainCold(c, hot);
    EvictIsPaid(c, 1);
    SetOfDistinct(cold, hot);
  }

  // -------- stale entries --------

  // Tickets are drawn once, so no entry is in the heap twice.
  ghost predicate Tidy(c: Cache) {
    Sound(c) && forall e :: e in c.heap ==> c.heap[e] == 1 && e.ticket <= c.ticket
  }

  ghost function StaleEntries(c: Cache): multiset<Entry> {
    c.heap - HeapOf(c.stamps)
  }

  lemma LiveEntriesAreInHeap(c: Cache)
    requires AllLive(c)
    ensures HeapOf(c.stamps) <= c.heap
    ensures forall e :: e in HeapOf(c.stamps) <==> e.hash in c.stamps && EntryOf(c.stamps, e.hash) == e
    ensures forall e :: HeapOf(c.stamps)[e] <= 1
  {
    var live := set h | h in c.stamps :: EntryOf(c.stamps, h);
    forall e ensures HeapOf(c.stamps)[e] <= c.heap[e] {
      if e in live {
        assert e in c.heap;
      }
    }
  }

  // The heap is one live entry per block plus the superseded entries, and a
  // compaction happens exactly when the latter outnumber the former by more
  // than the map's size (or the floor) allows.
  lemma StaleEntriesAreTheExcess(c: Cache)
    requires Tidy(c)
    ensures |c.heap| == |c.stamps| + |StaleEntries(c)|
    ensures forall e :: e in StaleEntries(c) <==>
                        e in c.heap && !(e.hash in c.stamps && EntryOf(c.stamps, e.hash) == e)
    ensures |c.heap| > 2 * Max(|c.stamps|, 1024) ==> |StaleEntries(c)| > Max(|c.stamps|, 1024)
    ensures StaleEntries(Compact(c)) == if |c.heap| > 2 * Max(|c.stamps|, 1024) then multiset{} else StaleEntries(c)
    ensures Compact(c).stamps == c.stamps
    ensures Compact(c).heap == if |c.heap| > 2 * Max(|c.stamps|, 1024) then c.heap - StaleEntries(c) else c.heap
  {
    LiveEntriesAreInHeap(c);
    HeapOfSize(c.stamps);
    assert c.heap == HeapOf(c.stamps) + StaleEntries(c);
  }

  lemma {:induction false} TouchBlocksTidy(c: Cache, hashes: seq<Hash>, access: nat)
    requires forall e :: e in c.heap ==> c.heap[e] == 1 && e.ticket <= c.ticket
    ensures var d := TouchBlocks(c, hashes, access);
            forall e :: e in d.heap ==> d.heap[e] == 1 && e.ticket <= d.ticket
    decreases |hashes|
  {
    if |hashes| > 0 {
      var b := TouchBlocks(c, hashes[..|hashes| - 1], access);
      TouchBlocksTidy(c, hashes[..|hashes| - 1], access);
      var pushed := Entry(access, b.ticket + 1, hashes[|hashes| - 1]);
      assert pushed !in b.heap;
    }
  }

  lemma TouchIsTidy(c: Cache, hashes: seq<Hash>)
    requires Tidy(c)
    ensures Tidy(Touch(c, hashes))
  {
    hide TouchBlocks, Sound, HeapOf;
    var b := c.(clock := c.clock + 1);
    var d := TouchBlocks(b, hashes, b.clock);
    TouchIsSound(c, hashes);
    TouchBlocksTidy(b, hashes, b.clock);
    CompactIsTidy(d, Touch(c, hashes));
  }

  lemma CompactIsTidy(d: Cache, c: Cache)
    requires c == Compact(d) && Sound(c)
    requires forall e :: e in d.heap ==> d.heap[e] == 1 && e.ticket <= d.ticket
    ensures Tidy(c)
  {
    LiveEntriesAreInHeap(c);
  }

  lemma {:induction false} EvictIsTidy(c: Cache, budget: nat)
    requires Tidy(c)
    ensures Tidy(EvictTo(c, budget))
    decreases |c.heap|
  {
    if |c.stamps| > budget && c.heap != multiset{} {
      PopIsSound(c);
      EvictIsTidy(PopOne(c), budget);
    }
  }

  // Every reachable cache is tidy: what the heap holds is always accounted for.
  lemma {:induction false} ReachableIsTidy(ops: seq<Op>)
    ensures Tidy(RunCache(ops).0)
    decreases |ops|
  {
    hide Touch, EvictTo, Tidy;
    if |ops| == 0 {
      EmptyIsTidy();
    } else {
      ReachableIsTidy(ops[..|ops| - 1]);
      var c := RunCache(ops[..|ops| - 1]).0;
      match ops[|ops| - 1]
      case Insert(chain) =>
        TouchIsTidy(c, chain);
      case Match(chain) =>
        TouchIsTidy(c, chain[..Lookup(c, chain)]);
      case Peek(chain) =>
      case Evict(budget) =>
        EvictIsTidy(c, budget);
    }
  }

  lemma EmptyIsTidy()
    ensures Tidy(EMPTY)
  {
  }
}

// The recency list: the simplest description of what the lazy-heap cache
// keeps. A cache is the list of its blocks from best protected to next
// victim; touching moves blocks to the front, evicting keeps a prefix.
module Recency {
  import opened LruCache

  // `h` without the hashes in `gone`, order kept.
  function Without(order: seq<Hash>, gone: set<Hash>): (kept: seq<Hash>)
    ensures forall h :: h in kept <==> h in order && h !in gone
    ensures |kept| <= |order|
  {
    if |order| == 0 then []
    else if order[0] in gone then Without(order[1..], gone)
    else [order[0]] + Without(order[1..], gone)
  }

  // The last occurrence of each hash, in chain order.
  function Front(hashes: seq<Hash>): (front: seq<Hash>)
    ensures forall h :: h in front <==> h in hashes
  {
    if |hashes| == 0 then []
    else
      var last := hashes[|hashes| - 1];
      assert hashes == hashes[..|hashes| - 1] + [last];
      Without(Front(hashes[..|hashes| - 1]), {last}) + [last]
  }

  function Touched(order: seq<Hash>, hashes: seq<Hash>): seq<Hash> {
    Front(hashes) + Without(order, SetOf(hashes))
  }

  function Kept(order: seq<Hash>, budget: nat): seq<Hash> {
    if |order| <= budget then order else order[..budget]
  }

  function Served(order: seq<Hash>, hashes: seq<Hash>, budget: nat): seq<Hash> {
    Kept(Touched(order, hashes), budget)
  }

  // `a` is evicted later than `b`.
  predicate Outranks(stamps: map<Hash, Stamp>, a: Hash, b: Hash)
    requires a in stamps && b in stamps
  {
    PopsBefore(EntryOf(stamps, b), EntryOf(stamps, a))
  }

  ghost predicate Sorted(stamps: map<Hash, Stamp>, order: seq<Hash>)
    requires forall h :: h in order ==> h in stamps
  {
    forall i, j :: 0 <= i < j < |order| ==> Outranks(stamps, order[i], order[j])
  }

  // `order` lists exactly the present blocks, best protected first.
  ghost predicate Ranked(stamps: map<Hash, Stamp>, order: seq<Hash>) {
    && (forall h :: h in order <==> h in stamps)
    && Sorted(stamps, order)
  }

  predicate IsVictim(stamps: map<Hash, Stamp>, v: Hash) {
    v in stamps && forall h :: h in stamps && h != v ==> Outranks(stamps, h, v)
  }

  lemma VictimExists(stamps: map<Hash, Stamp>)
    requires |stamps| > 0
    ensures exists v :: IsVictim(stamps, v)
  {
    HeapOfSize(stamps);
    var e := Top(HeapOf(stamps));
    assert e.hash in stamps && EntryOf(stamps, e.hash) == e;
    forall h | h in stamps && h != e.hash ensures Outranks(stamps, h, e.hash) {
      assert EntryOf(stamps, h) in HeapOf(stamps);
    }
    assert IsVictim(stamps, e.hash);
  }

  // The recency list of a cache, read off its stamps.
  ghost function Order(stamps: map<Hash, Stamp>): (order: seq<Hash>)
    ensures |order| == |stamps|
    ensures forall h :: h in order <==> h in stamps
    decreases |stamps|
  {
    if |stamps| == 0 then []
    else
      VictimExists(stamps);
      var v :| IsVictim(stamps, v);
      Order(stamps - {v}) + [v]
  }

  lemma {:induction false} OrderIsRanked(stamps: map<Hash, Stamp>)
    ensures Ranked(stamps, Order(stamps))
    decreases |stamps|
  {
    if |stamps| > 0 {
      var order := Order(stamps);
      var v := order[|order| - 1];
      LastOfOrder(stamps);
      OrderIsRanked(stamps - {v});
      forall i, j | 0 <= i < j < |order| ensures Outranks(stamps, order[i], order[j]) {
        if j < |order| - 1 {
          assert Outranks(stamps - {v}, order[i], order[j]);
        } else {
          assert order[i] in stamps - {v};
        }
      }
    }
  }

  // The last block of the recency list is the next victim.
  lemma LastOfOrder(stamps: map<Hash, Stamp>)
    requires |stamps| > 0
    ensures var v := Order(stamps)[|stamps| - 1];
            && IsVictim(stamps, v)
            && Order(stamps) == Order(stamps - {v}) + [v]
  {
    VictimExists(stamps);
  }

  lemma VictimIsUnique(stamps: map<Hash, Stamp>, v: Hash, w: Hash)
    requires IsVictim(stamps, v) && IsVictim(stamps, w)
    ensures v == w
  {
  }

  lemma LastOfRanked(stamps: map<Hash, Stamp>, order: seq<Hash>, v: Hash)
    requires Ranked(stamps, order + [v])
    ensures IsVictim(stamps, v)
    ensures Ranked(stamps - {v}, order)
  {
    var all := order + [v];
    assert v in all;
    forall h | h in stamps && h != v ensures Outranks(stamps, h, v) {
      assert h in all;
      var i :| 0 <= i < |all| && all[i] == h;
      assert Outranks(stamps, all[i], all[|order|]);
    }
    forall i | 0 <= i < |order| ensures order[i] != v {
      assert Outranks(stamps, all[i], all[|order|]);
    }
    forall h ensures h in order <==> h in stamps - {v} {
      assert h in all <==> h in order || h == v;
    }
    forall i, j | 0 <= i < j < |order| ensures Outranks(stamps - {v}, order[i], order[j]) {
      assert Outranks(stamps, all[i], all[j]);
    }
  }

  // There is only one ranked list, so `Order` is the recency list.
  lemma {:induction false} RankedIsOrder(stamps: map<Hash, Stamp>, order: seq<Hash>)
    requires Ranked(stamps, order)
    ensures order == Order(stamps)
    decreases |order|
  {
    hide Order, IsVictim;
    if |order| == 0 {
      assert |stamps| == 0 by {
        assert stamps == map[];
      }
    } else {
      var v, rest := order[|order| - 1], order[..|order| - 1];
      assert order == rest + [v];
      assert v in order;
      LastOfRanked(stamps, rest, v);
      RankedIsOrder(stamps - {v}, rest);
      LastOfOrder(stamps);
      VictimIsUnique(stamps, v, Order(stamps)[|stamps| - 1]);
    }
  }

  // -------- touching --------

  lemma {:induction false} WithoutIsSorted(stamps: map<Hash, Stamp>, order: seq<Hash>, gone: set<Hash>)
    requires forall h :: h in order ==> h in stamps
    requires Sorted(stamps, order)
    ensures Sorted(stamps, Without(order, gone))
    decreases |order|
  {
    if |order| > 0 {
      var tail := Without(order[1..], gone);
      WithoutIsSorted(stamps, order[1..], gone);
      forall i | 0 <= i < |tail| ensures Outranks(stamps, order[0], tail[i]) {
        assert tail[i] in order[1..];
      }
    }
  }

  lemma {:induction false} WithoutTwice(order: seq<Hash>, a: set<Hash>, b: set<Hash>)
    ensures Without(Without(order, a), b) == Without(order, a + b)
    decreases |order|
  {
    if |order| > 0 {
      WithoutTwice(order[1..], a, b);
    }
  }

  lemma {:induction false} WithoutNothing(order: seq<Hash>, gone: set<Hash>)
    requires forall h :: h in order ==> h !in gone
    ensures Without(order, gone) == order
    decreases |order|
  {
    if |order| > 0 {
      WithoutNothing(order[1..], gone);
    }
  }

  lemma {:induction false} WithoutConcat(a: seq<Hash>, b: seq<Hash>, gone: set<Hash>)
    ensures Without(a + b, gone) == Without(a, gone) + Without(b, gone)
    decreases |a|
  {
    if |a| == 0 {
      assert a + b == b;
    } else {
      assert (a + b)[1..] == a[1..] + b;
      WithoutConcat(a[1..], b, gone);
    }
  }

  // Touching one more hash in the current tick: it leaves its old place and
  // joins the end of the blocks already touched in this tick.
  lemma TouchedSnoc(order: seq<Hash>, hashes: seq<Hash>, h: Hash)
    ensures Touched(order, hashes + [h])
         == Without(Front(hashes), {h}) + [h] + Without(Without(order, SetOf(hashes)), {h})
  {
    assert (hashes + [h])[..|hashes|] == hashes;
    assert SetOf(hashes + [h]) == SetOf(hashes) + {h};
    WithoutTwice(order, SetOf(hashes), {h});
  }

  lemma SortedAround(stamps: map<Hash, Stamp>, a: seq<Hash>, h: Hash, b: seq<Hash>)
    requires h in stamps && forall x :: x in a + b ==> x in stamps
    requires Sorted(stamps, a + b)
    requires forall x :: x in a ==> Outranks(stamps, x, h)
    requires forall x :: x in b ==> Outranks(stamps, h, x)
    ensures forall x :: x in a + [h] + b ==> x in stamps
    ensures Sorted(stamps, a + [h] + b)
  {
    var order, rest := a + [h] + b, a + b;
    forall i, j | 0 <= i < j < |order| ensures Outranks(stamps, order[i], order[j]) {
      if i == |a| {
        assert order[j] in b;
      } else if j == |a| {
        assert order[i] in a;
      } else {
        var i', j' := if i < |a| then i else i - 1, if j < |a| then j else j - 1;
        assert order[i] == rest[i'] && order[j] == rest[j'];
      }
    }
  }

  lemma SortedElsewhere(stamps: map<Hash, Stamp>, stamps': map<Hash, Stamp>, order: seq<Hash>)
    requires forall h :: h in order ==> h in stamps && h in stamps' && stamps[h] == stamps'[h]
    requires Sorted(stamps, order)
    ensures Sorted(stamps', order)
  {
    forall i, j | 0 <= i < j < |order| ensures Outranks(stamps', order[i], order[j]) {
      assert Outranks(stamps, order[i], order[j]);
    }
  }

  lemma TouchBlockRanked(c: Cache, h: Hash, access: nat, now: seq<Hash>, before: seq<Hash>)
    requires Ranked(c.stamps, now + before)
    requires forall x :: x in c.stamps ==> c.stamps[x].ticket <= c.ticket && c.stamps[x].access <= access
    requires forall x :: x in now ==> x in c.stamps && c.stamps[x].access == access
    requires forall x :: x in before ==> x in c.stamps && c.stamps[x].access < access
    ensures Ranked(TouchBlock(c, h, access).stamps, Without(now, {h}) + [h] + Without(before, {h}))
  {
    var stamps := TouchBlock(c, h, access).stamps;
    var a, b := Without(now, {h}), Without(before, {h});
    WithoutConcat(now, before, {h});
    WithoutIsSorted(c.stamps, now + before, {h});
    SortedElsewhere(c.stamps, stamps, a + b);
    SortedAround(stamps, a, h, b);
    forall x ensures x in a + [h] + b <==> x in stamps {
      assert x in now + before <==> x in c.stamps;
    }
  }

  lemma {:induction false} TouchBlocksRanked(c: Cache, hashes: seq<Hash>, order: seq<Hash>)
    requires Ranked(c.stamps, order)
    requires forall h :: h in c.stamps ==> c.stamps[h].access < c.clock && c.stamps[h].ticket <= c.ticket
    ensures Ranked(TouchBlocks(c, hashes, c.clock).stamps, Touched(order, hashes))
    decreases |hashes|
  {
    if |hashes| == 0 {
      WithoutNothing(order, {});
      assert SetOf(hashes) == {};
    } else {
      var front, last := hashes[..|hashes| - 1], hashes[|hashes| - 1];
      assert hashes == front + [last];
      TouchBlocksRanked(c, front, order);
      TouchBlocksFacts(c, front, c.clock);
      TouchedSnoc(order, front, last);
      TouchBlockRanked(TouchBlocks(c, front, c.clock), last, c.clock,
                       Front(front), Without(order, SetOf(front)));
    }
  }

  // Touching a chain moves it to the front, last occurrences in chain order.
  lemma TouchRefines(c: Cache, hashes: seq<Hash>)
    requires Sound(c)
    ensures Order(Touch(c, hashes).stamps) == Touched(Order(c.stamps), hashes)
  {
    var b := c.(clock := c.clock + 1);
    OrderIsRanked(c.stamps);
    TouchBlocksRanked(b, hashes, Order(c.stamps));
    TouchStamps(c, hashes);
    RankedIsOrder(Touch(c, hashes).stamps, Touched(Order(c.stamps), hashes));
  }

  // -------- evicting --------

  // A pop over budget never finds the heap empty, and either discards a
  // stale entry or evicts exactly the victim.
  lemma PopEvicts(c: Cache)
    requires Sound(c) && |c.stamps| > 0
    ensures c.heap != multiset{}
    ensures var d := PopOne(c);
            d.stamps == c.stamps || exists v :: IsVictim(c.stamps, v) && d.stamps == c.stamps - {v}
  {
    VictimExists(c.stamps);
    var v :| IsVictim(c.stamps, v);
    assert EntryOf(c.stamps, v) in c.heap;
    TopIsVictim(c, v);
    hide Sound, IsVictim, IsTop;
    if PopOne(c).stamps != c.stamps {
      assert PopOne(c).stamps == c.stamps - {v};
    }
  }

  // If the top of the heap is live, it is the victim's entry.
  lemma TopIsVictim(c: Cache, v: Hash)
    requires IsVictim(c.stamps, v) && EntryOf(c.stamps, v) in c.heap
    ensures var e := Top(c.heap);
            e.hash in c.stamps && EntryOf(c.stamps, e.hash) == e ==> e.hash == v
  {
    var e := Top(c.heap);
    assert EntryOf(c.stamps, v) == e || PopsBefore(e, EntryOf(c.stamps, v));
    if e.hash in c.stamps && e.hash != v {
      assert Outranks(c.stamps, e.hash, v);
    }
  }

  lemma VictimShortensOrder(stamps: map<Hash, Stamp>, v: Hash)
    requires IsVictim(stamps, v)
    ensures |stamps| > 0 && Order(stamps - {v}) == Order(stamps)[..|stamps| - 1]
  {
    assert v in stamps.Keys;
    LastOfOrder(stamps);
    VictimIsUnique(stamps, v, Order(stamps)[|stamps| - 1]);
  }

  // Evicting keeps exactly the `budget` best protected blocks.
  lemma {:induction false} EvictRefines(c: Cache, budget: nat)
    requires Sound(c)
    ensures Order(EvictTo(c, budget).stamps) == Kept(Order(c.stamps), budget)
    decreases |c.heap|
  {
    hide PopOne, IsVictim, Order, Sound;
    if |c.stamps| > budget {
      PopEvicts(c);
      PopIsSound(c);
      EvictRefines(PopOne(c), budget);
      if PopOne(c).stamps != c.stamps {
        var v :| IsVictim(c.stamps, v) && PopOne(c).stamps == c.stamps - {v};
        VictimShortensOrder(c.stamps, v);
      }
    }
  }

  lemma ServeRefines(c: Cache, hashes: seq<Hash>, budget: nat)
    requires Sound(c)
    ensures Order(Serve(c, hashes, budget).stamps) == Served(Order(c.stamps), hashes, budget)
    ensures |Serve(c, hashes, budget).stamps| <= budget
  {
    TouchIsSound(c, hashes);
    TouchRefines(c, hashes);
    EvictRefines(Touch(c, hashes), budget);
  }

  // -------- runs --------

  // A run on the recency list alone: its final list, and what each
  // `match_prefix` and `lookup` told.
  function ListStep(order: seq<Hash>, told: seq<nat>, op: Op): (seq<Hash>, seq<nat>) {
    match op
    case Insert(chain) => (Touched(order, chain), told)
    case Match(chain) =>
      var n := Leading(SetOf(order), chain);
      (Touched(order, chain[..n]), told + [n])
    case Peek(chain) => (order, told + [Leading(SetOf(order), chain)])
    case Evict(budget) => (Kept(order, budget), told)
  }

  function RunList(ops: seq<Op>): (seq<Hash>, seq<nat>) {
    if |ops| == 0 then ([], [])
    else
      var (order, told) := RunList(ops[..|ops| - 1]);
      ListStep(order, told, ops[|ops| - 1])
  }

  lemma OrderHoldsKeys(stamps: map<Hash, Stamp>)
    ensures SetOf(Order(stamps)) == stamps.Keys
  {
  }

  // Over every run, on arbitrary hash sequences, the lazy-heap cache is the
  // recency list: same blocks in the same order of protection, same answers.
  lemma {:induction false} CacheIsRecencyList(ops: seq<Op>)
    ensures Sound(RunCache(ops).0)
    ensures Order(RunCache(ops).0.stamps) == RunList(ops).0
    ensures RunCache(ops).1 == RunList(ops).1
    decreases |ops|
  {
    hide Sound, Order, Touch, EvictTo, Leading, Touched, Kept;
    if |ops| == 0 {
      EmptyList();
    } else {
      var front := ops[..|ops| - 1];
      CacheIsRecencyList(front);
      var c := RunCache(front).0;
      OrderHoldsKeys(c.stamps);
      match ops[|ops| - 1]
      case Insert(chain) =>
        TouchIsSound(c, chain);
        TouchRefines(c, chain);
      case Match(chain) =>
        TouchIsSound(c, chain[..Lookup(c, chain)]);
        TouchRefines(c, chain[..Lookup(c, chain)]);
      case Peek(chain) =>
      case Evict(budget) =>
        EvictIsSound(c, budget);
        EvictRefines(c, budget);
    }
  }

  lemma EmptyList()
    ensures Sound(EMPTY) && Order(EMPTY.stamps) == []
  {
  }
}

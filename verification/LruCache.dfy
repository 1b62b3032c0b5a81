// The value of a lazy-heap LRU cache and the pure meaning of its operations,
// shared by the router's `PrefixCache` and the replica's `KvCacheSim`, which
// hold the same four fields and are proved against these functions.
module LruCache {
  import Blocks

  type Hash = Blocks.Hash

  // What the map stores for a block: the clock tick of its last touch and the
  // ticket (the source's `seq`) drawn by that touch.
  datatype Stamp = Stamp(access: nat, ticket: nat)

  // A heap element `(Reverse(access), seq, hash)`.
  datatype Entry = Entry(access: nat, ticket: nat, hash: Hash)

  datatype Cache = Cache(stamps: map<Hash, Stamp>, heap: multiset<Entry>, clock: nat, ticket: nat)

  const COMPACT_FLOOR: nat := 1024

  const EMPTY: Cache := Cache(map[], multiset{}, 0, 0)

  // The order of the max-heap: smaller access first, then larger ticket,
  // then larger hash.
  predicate PopsBefore(a: Entry, b: Entry) {
    || a.access < b.access
    || (a.access == b.access && a.ticket > b.ticket)
    || (a.access == b.access && a.ticket == b.ticket && a.hash > b.hash)
  }

  predicate IsTop(heap: multiset<Entry>, e: Entry) {
    e in heap && forall x :: x in heap ==> x == e || PopsBefore(e, x)
  }

  lemma {:induction false} TopExists(heap: multiset<Entry>)
    requires heap != multiset{}
    ensures exists e :: IsTop(heap, e)
    decreases |heap|
  {
    var x :| x in heap;
    var rest := heap - multiset{x};
    if rest == multiset{} {
      assert heap == multiset{x};
      assert IsTop(heap, x);
    } else {
      TopExists(rest);
      var t :| IsTop(rest, t);
      assert forall y :: y in heap ==> y == x || y in rest;
      assert IsTop(heap, if t == x || PopsBefore(t, x) then t else x);
    }
  }

  // The element `pop` returns; unique because the order is total.
  ghost function Top(heap: multiset<Entry>): (e: Entry)
    requires heap != multiset{}
    ensures IsTop(heap, e)
  {
    TopExists(heap);
    var e :| IsTop(heap, e);
    e
  }

  function EntryOf(stamps: map<Hash, Stamp>, h: Hash): Entry
    requires h in stamps
  {
    Entry(stamps[h].access, stamps[h].ticket, h)
  }

  // The heap rebuilt from the map: one entry per block, none of them stale.
  function HeapOf(stamps: map<Hash, Stamp>): multiset<Entry> {
    multiset(set h | h in stamps :: EntryOf(stamps, h))
  }

  function SetOf(hashes: seq<Hash>): set<Hash> {
    set h | h in hashes
  }

  lemma {:induction false} CountNew(present: set<Hash>, hashes: seq<Hash>, k: nat)
    requires k <= |hashes|
    requires forall i, j :: 0 <= i < j < |hashes| ==> hashes[i] != hashes[j]
    requires forall i :: 0 <= i < |hashes| ==> (hashes[i] in present <==> i < k)
    ensures |present + SetOf(hashes)| == |present| + |hashes| - k
    decreases |hashes|
  {
    if |hashes| == k {
      assert present + SetOf(hashes) == present;
    } else {
      var front, last := hashes[..|hashes| - 1], hashes[|hashes| - 1];
      CountNew(present, front, k);
      assert hashes == front + [last];
      assert present + SetOf(hashes) == present + SetOf(front) + {last};
    }
  }

  // The number of leading hashes that are present.
  function Leading(present: set<Hash>, hashes: seq<Hash>): (n: nat)
    ensures n <= |hashes|
    ensures forall i :: 0 <= i < n ==> hashes[i] in present
    ensures n < |hashes| ==> hashes[n] !in present
  {
    if |hashes| > 0 && hashes[0] in present then 1 + Leading(present, hashes[1..]) else 0
  }

  function Lookup(c: Cache, hashes: seq<Hash>): nat {
    Leading(c.stamps.Keys, hashes)
  }

  function TouchBlock(c: Cache, h: Hash, access: nat): Cache {
    Cache(c.stamps[h := Stamp(access, c.ticket + 1)],
          c.heap + multiset{Entry(access, c.ticket + 1, h)},
          c.clock,
          c.ticket + 1)
  }

  function TouchBlocks(c: Cache, hashes: seq<Hash>, access: nat): Cache {
    if |hashes| == 0 then c
    else TouchBlock(TouchBlocks(c, hashes[..|hashes| - 1], access), hashes[|hashes| - 1], access)
  }

  function Max(a: nat, b: nat): (m: nat)
    ensures m >= a && m >= b && (m == a || m == b)
  {
    if a < b then b else a
  }

  lemma TouchNoBlocks(c: Cache, access: nat)
    ensures TouchBlocks(c, [], access) == c
  {
  }

  predicate Bloated(c: Cache) {
    |c.heap| > 2 * Max(|c.stamps|, COMPACT_FLOOR)
  }

  function Compact(c: Cache): Cache {
    if Bloated(c) then c.(heap := HeapOf(c.stamps)) else c
  }

  // One clock tick in which exactly `hashes` are touched, in order.
  function Touch(c: Cache, hashes: seq<Hash>): Cache {
    Compact(TouchBlocks(c.(clock := c.clock + 1), hashes, c.clock + 1))
  }

  function MatchPrefix(c: Cache, hashes: seq<Hash>): Cache {
    Touch(c, hashes[..Lookup(c, hashes)])
  }

  // One `pop`: a stale entry is discarded, a live one evicts its block.
  ghost function PopOne(c: Cache): (c': Cache)
    requires c.heap != multiset{}
    ensures |c'.heap| == |c.heap| - 1
  {
    var e := Top(c.heap);
    c.(heap := c.heap - multiset{e},
       stamps := if e.hash in c.stamps && EntryOf(c.stamps, e.hash) == e
                 then c.stamps - {e.hash} else c.stamps)
  }

  // `PopOne` as the loops compute it from the popped entry.
  lemma PopIs(c: Cache, e: Entry)
    requires c.heap != multiset{} && e == Top(c.heap)
    ensures PopOne(c) == c.(heap := c.heap - multiset{e},
                            stamps := if e.hash in c.stamps && c.stamps[e.hash] == Stamp(e.access, e.ticket)
                                      then c.stamps - {e.hash} else c.stamps)
  {
    hide IsTop;
  }

  ghost function EvictTo(c: Cache, budget: nat): Cache
    decreases |c.heap|
  {
    if |c.stamps| > budget && c.heap != multiset{} then EvictTo(PopOne(c), budget) else c
  }

  // The number of pops `EvictTo` performs.
  ghost function EvictPops(c: Cache, budget: nat): nat
    decreases |c.heap|
  {
    if |c.stamps| > budget && c.heap != multiset{} then 1 + EvictPops(PopOne(c), budget) else 0
  }

  // Serving a request: insert the whole chain, then evict down to `budget`.
  ghost function Serve(c: Cache, hashes: seq<Hash>, budget: nat): Cache {
    EvictTo(Touch(c, hashes), budget)
  }

  // Every block's current entry is in the heap.
  ghost predicate AllLive(c: Cache) {
    forall h :: h in c.stamps ==> EntryOf(c.stamps, h) in c.heap
  }

  // What every reachable cache satisfies: no live entry is missing from the
  // heap, and no stamp lies in the future.
  ghost predicate Sound(c: Cache) {
    && AllLive(c)
    && (forall h :: h in c.stamps ==> c.stamps[h].access <= c.clock && c.stamps[h].ticket <= c.ticket)
  }

  lemma {:induction false} HeapOfSize(stamps: map<Hash, Stamp>)
    ensures |HeapOf(stamps)| == |stamps|
    decreases |stamps|
  {
    if |stamps| > 0 {
      var h :| h in stamps.Keys;
      var rest := stamps - {h};
      HeapOfSize(rest);
      var image, imageRest := set x | x in stamps :: EntryOf(stamps, x), set x | x in rest :: EntryOf(rest, x);
      forall e ensures e in image <==> e in imageRest + {EntryOf(stamps, h)} {
        if e in image {
          var x :| x in stamps && e == EntryOf(stamps, x);
          assert x == h || (x in rest && e == EntryOf(rest, x));
        }
        if e in imageRest {
          var x :| x in rest && e == EntryOf(rest, x);
          assert e == EntryOf(stamps, x);
        }
      }
      assert image == imageRest + {EntryOf(stamps, h)};
      assert EntryOf(stamps, h) !in imageRest;
    }
  }

  lemma TouchBlocksNext(c: Cache, hashes: seq<Hash>, access: nat, i: nat)
    requires i < |hashes|
    ensures TouchBlocks(c, hashes[..i + 1], access) == TouchBlock(TouchBlocks(c, hashes[..i], access), hashes[i], access)
  {
    assert hashes[..i + 1][..i] == hashes[..i];
  }

  // How far `Leading` has been read off by a scan that has reached index i.
  lemma LeadingIs(present: set<Hash>, hashes: seq<Hash>, i: nat)
    requires i <= |hashes|
    requires forall j :: 0 <= j < i ==> hashes[j] in present
    ensures i <= Leading(present, hashes)
    ensures i < |hashes| && hashes[i] !in present ==> i == Leading(present, hashes)
  {
  }

  lemma TouchIs(c: Cache, hashes: seq<Hash>)
    ensures Touch(c, hashes) == Compact(TouchBlocks(c.(clock := c.clock + 1), hashes, c.clock + 1))
  {
  }

  lemma {:induction false} TouchBlocksFacts(c: Cache, hashes: seq<Hash>, access: nat)
    ensures var d := TouchBlocks(c, hashes, access);
            && d.clock == c.clock && d.ticket == c.ticket + |hashes|
            && |d.heap| == |c.heap| + |hashes|
            && (forall h :: h in d.stamps <==> h in c.stamps || h in hashes)
            && (forall h :: h in c.stamps && h !in hashes ==> d.stamps[h] == c.stamps[h])
            && (forall h :: h in hashes ==>
                  && d.stamps[h].access == access
                  && c.ticket < d.stamps[h].ticket <= d.ticket)
    decreases |hashes|
  {
    if |hashes| > 0 {
      var front, last := hashes[..|hashes| - 1], hashes[|hashes| - 1];
      TouchBlocksFacts(c, front, access);
      assert hashes == front + [last];
    }
  }

  lemma TouchBlockLive(c: Cache, h: Hash, access: nat)
    requires AllLive(c)
    ensures AllLive(TouchBlock(c, h, access))
  {
    var d := TouchBlock(c, h, access);
    forall x | x in d.stamps ensures EntryOf(d.stamps, x) in d.heap {
      if x != h {
        assert EntryOf(c.stamps, x) in c.heap;
      }
    }
  }

  lemma {:induction false} TouchBlocksLive(c: Cache, hashes: seq<Hash>, access: nat)
    requires AllLive(c)
    ensures AllLive(TouchBlocks(c, hashes, access))
    decreases |hashes|
  {
    if |hashes| > 0 {
      TouchBlocksLive(c, hashes[..|hashes| - 1], access);
      TouchBlockLive(TouchBlocks(c, hashes[..|hashes| - 1], access), hashes[|hashes| - 1], access);
    }
  }

  lemma CompactKeepsLive(c: Cache)
    requires AllLive(c)
    ensures AllLive(Compact(c))
  {
  }

  lemma TouchStamps(c: Cache, hashes: seq<Hash>)
    ensures Touch(c, hashes).clock == c.clock + 1
    ensures Touch(c, hashes).ticket == c.ticket + |hashes|
    ensures Touch(c, hashes).stamps == TouchBlocks(c.(clock := c.clock + 1), hashes, c.clock + 1).stamps
    ensures Touch(c, hashes).stamps.Keys == c.stamps.Keys + SetOf(hashes)
  {
    hide TouchBlocks, HeapOf, Bloated;
    var b := c.(clock := c.clock + 1);
    TouchBlocksFacts(b, hashes, b.clock);
    assert forall h :: h in TouchBlocks(b, hashes, b.clock).stamps.Keys <==> h in c.stamps.Keys + SetOf(hashes);
  }

  lemma TouchIsSound(c: Cache, hashes: seq<Hash>)
    requires Sound(c)
    ensures Sound(Touch(c, hashes))
  {
    hide TouchBlocks;
    var b := c.(clock := c.clock + 1);
    TouchBlocksFacts(b, hashes, b.clock);
    assert AllLive(b);
    TouchBlocksLive(b, hashes, b.clock);
    CompactKeepsLive(TouchBlocks(b, hashes, b.clock));
  }

  lemma PopIsSound(c: Cache)
    requires Sound(c) && c.heap != multiset{}
    ensures Sound(PopOne(c))
  {
    var e, d := Top(c.heap), PopOne(c);
    forall h | h in d.stamps ensures EntryOf(d.stamps, h) in d.heap {
      assert EntryOf(c.stamps, h) in c.heap && EntryOf(c.stamps, h) != e;
    }
  }

  lemma {:induction false} EvictIsSound(c: Cache, budget: nat)
    requires Sound(c)
    ensures Sound(EvictTo(c, budget))
    decreases |c.heap|
  {
    if |c.stamps| > budget && c.heap != multiset{} {
      PopIsSound(c);
      EvictIsSound(PopOne(c), budget);
    }
  }

  lemma ServeIsSound(c: Cache, hashes: seq<Hash>, budget: nat)
    requires Sound(c)
    ensures Sound(Serve(c, hashes, budget))
  {
    TouchIsSound(c, hashes);
    EvictIsSound(Touch(c, hashes), budget);
  }

  // -------- runs of one cache --------

  datatype Op = Insert(chain: seq<Hash>) | Match(chain: seq<Hash>) | Peek(chain: seq<Hash>) | Evict(budget: nat)

  function Chain(op: Op): seq<Hash> {
    if op.Evict? then [] else op.chain
  }

  // The state after a run, and what each `match_prefix` and `lookup` told.
  ghost function RunCache(ops: seq<Op>): (Cache, seq<nat>) {
    if |ops| == 0 then (EMPTY, [])
    else
      var (c, told) := RunCache(ops[..|ops| - 1]);
      match ops[|ops| - 1]
      case Insert(chain) => (Touch(c, chain), told)
      case Match(chain) => (MatchPrefix(c, chain), told + [Lookup(c, chain)])
      case Peek(chain) => (c, told + [Lookup(c, chain)])
      case Evict(budget) => (EvictTo(c, budget), told)
  }
}

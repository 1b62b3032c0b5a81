// crates/router/src/prefix_cache.rs: the router's per-replica picture of
// cached prefixes, with its real fields and loops.
module PrefixCache {
  import opened LruCache

  // `BinaryHeap::pop` on a non-empty heap: the maximum leaves the heap.
  method PopMax(heap: multiset<Entry>) returns (e: Entry, rest: multiset<Entry>)
    requires heap != multiset{}
    ensures e == Top(heap) && rest == heap - multiset{e}
    ensures forall x :: x in heap ==>
              || x.access > e.access
              || (x.access == e.access && x.ticket < e.ticket)
              || (x.access == e.access && x.ticket == e.ticket && x.hash <= e.hash)
  {
    TopExists(heap);
    e :| IsTop(heap, e);
    rest := heap - multiset{e};
  }

  class PrefixCache {
    var stamps: map<Hash, Stamp>
    var heap: multiset<Entry>
    var clock: nat
    var ticket: nat

    function State(): Cache
      reads this
    {
      Cache(stamps, heap, clock, ticket)
    }

    constructor ()
      ensures State() == EMPTY
    {
      stamps, heap, clock, ticket := map[], multiset{}, 0, 0;
    }

    method NumBlocks() returns (n: nat)
      ensures n == |State().stamps|
    {
      n := |stamps|;
    }

    // Stamps one block and pushes its new heap entry.
    method Push(h: Hash, access: nat)
      modifies this`ticket, this`stamps, this`heap
      ensures State() == TouchBlock(old(State()), h, access)
      ensures stamps.Keys == old(stamps.Keys) + {h}
    {
      ticket := ticket + 1;
      stamps := stamps[h := Stamp(access, ticket)];
      heap := heap + multiset{Entry(access, ticket, h)};
    }

    // `MatchPrefix` touches only while blocks are present, `Insert` always.
    method TouchHashes(hashes: seq<Hash>, onlyPresent: bool) returns (touched: nat)
      modifies this
      ensures touched == if onlyPresent then LruCache.Lookup(old(State()), hashes) else |hashes|
      ensures State() == Touch(old(State()), hashes[..touched])
    {
      hide TouchBlocks, TouchBlock, Leading, Compact, Touch;
      clock := clock + 1;
      var access := clock;
      touched := 0;
      ghost var start := State();
      TouchNoBlocks(start, access);
      assert hashes[..0] == [];
      while touched < |hashes|
        invariant 0 <= touched <= |hashes|
        invariant State() == TouchBlocks(start, hashes[..touched], access)
        invariant onlyPresent ==> stamps.Keys == start.stamps.Keys
        invariant onlyPresent ==> forall i :: 0 <= i < touched ==> hashes[i] in start.stamps
      {
        var h := hashes[touched];
        if onlyPresent && h !in stamps {
          break;
        }
        Push(h, access);
        TouchBlocksNext(start, hashes, access, touched);
        touched := touched + 1;
      }
      if onlyPresent {
        LeadingIs(start.stamps.Keys, hashes, touched);
      }
      CompactIfBloated();
      TouchIs(old(State()), hashes[..touched]);
    }

    method CompactIfBloated()
      modifies this`heap
      ensures State() == Compact(old(State()))
    {
      var threshold := 2 * Max(|stamps|, COMPACT_FLOOR);
      if |heap| > threshold {
        heap := multiset(set h | h in stamps :: EntryOf(stamps, h));
      }
    }

    method MatchPrefix(hashes: seq<Hash>) returns (matched: nat)
      modifies this
      ensures matched == LruCache.Lookup(old(State()), hashes)
      ensures State() == LruCache.MatchPrefix(old(State()), hashes)
    {
      matched := TouchHashes(hashes, true);
    }

    method Insert(hashes: seq<Hash>)
      modifies this
      ensures State() == Touch(old(State()), hashes)
    {
      var touched := TouchHashes(hashes, false);
      assert hashes[..touched] == hashes;
    }

    method Lookup(hashes: seq<Hash>) returns (n: nat)
      ensures n == LruCache.Lookup(State(), hashes)
    {
      n := 0;
      while n < |hashes| && hashes[n] in stamps
        invariant 0 <= n <= LruCache.Lookup(State(), hashes)
      {
        n := n + 1;
      }
    }

    method EvictTo(budget: nat) returns (ghost pops: nat)
      modifies this`stamps, this`heap
      ensures State() == LruCache.EvictTo(old(State()), budget)
      ensures pops == EvictPops(old(State()), budget)
    {
      hide IsTop, PopOne;
      pops := 0;
      ghost var start := State();
      while |stamps| > budget && heap != multiset{}
        invariant LruCache.EvictTo(State(), budget) == LruCache.EvictTo(start, budget)
        invariant pops + EvictPops(State(), budget) == EvictPops(start, budget)
        decreases |heap|
      {
        ghost var before := State();
        var e, rest := PopMax(heap);
        PopIs(before, e);
        heap := rest;
        if e.hash in stamps && stamps[e.hash] == Stamp(e.access, e.ticket) {
          stamps := stamps - {e.hash};
        }
        pops := pops + 1;
      }
    }
  }
}

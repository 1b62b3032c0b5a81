// crates/mock-triton/src/cache.rs: the replica's own cache simulation, a
// separate implementation with a fixed capacity. It is proved against the
// functions that specify the router's `PrefixCache`.
module KvCacheSim {
  import opened LruCache
  import PrefixCache

  class KvCacheSim {
    const capacity: nat
    var stamps: map<Hash, Stamp>
    var heap: multiset<Entry>
    var clock: nat
    var ticket: nat

    function State(): Cache
      reads this
    {
      Cache(stamps, heap, clock, ticket)
    }

    constructor (capacity: nat)
      ensures State() == EMPTY && this.capacity == capacity
    {
      this.capacity := capacity;
      stamps, heap, clock, ticket := map[], multiset{}, 0, 0;
    }

    // Counts the leading blocks already cached, then caches the whole chain
    // in one tick and evicts down to capacity.
    method LookupInsert(hashes: seq<Hash>) returns (cached: nat)
      modifies this
      ensures cached == Lookup(old(State()), hashes)
      ensures State() == Serve(old(State()), hashes, capacity)
    {
      hide TouchBlocks, Leading, Compact, EvictTo;
      clock := clock + 1;
      var access := clock;
      cached := 0;
      while cached < |hashes| && hashes[cached] in stamps
        invariant 0 <= cached <= |hashes|
        invariant forall i :: 0 <= i < cached ==> hashes[i] in stamps
      {
        cached := cached + 1;
      }
      LeadingIs(stamps.Keys, hashes, cached);
      ghost var start := State();
      TouchNoBlocks(start, access);
      assert hashes[..0] == [];
      for i := 0 to |hashes|
        invariant State() == TouchBlocks(start, hashes[..i], access)
      {
        TouchBlocksNext(start, hashes, access, i);
        ticket := ticket + 1;
        stamps := stamps[hashes[i] := Stamp(access, ticket)];
        heap := heap + multiset{Entry(access, ticket, hashes[i])};
      }
      assert hashes[..|hashes|] == hashes;
      CompactIfBloated();
      EvictOverCapacity();
    }

    method CompactIfBloated()
      modifies this`heap
      ensures State() == Compact(old(State()))
    {
      var threshold := 2 * Max(|stamps|, COMPACT_FLOOR);
      if |heap| > threshold {
        heap := multiset(set h | h in stamps :: EntryOf(stamps, h));
      }
    }

    method EvictOverCapacity()
      modifies this`stamps, this`heap
      ensures State() == EvictTo(old(State()), capacity)
    {
      hide IsTop, PopOne;
      while |stamps| > capacity && heap != multiset{}
        invariant EvictTo(State(), capacity) == EvictTo(old(State()), capacity)
        decreases |heap|
      {
        ghost var before := State();
        var e, rest := PrefixCache.PopMax(heap);
        PopIs(before, e);
        heap := rest;
        if e.hash in stamps && stamps[e.hash] == Stamp(e.access, e.ticket) {
          stamps := stamps - {e.hash};
        }
      }
    }
  }
}

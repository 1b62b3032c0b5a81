// What the recency refinement buys: exact hits after serving, and LRU
// inclusion between budgets.
module CacheLaws {
  import opened LruCache
  import opened Recency

  predicate Distinct(hashes: seq<Hash>) {
    forall i, j :: 0 <= i < j < |hashes| ==> hashes[i] != hashes[j]
  }

  // -------- hits after serving --------

  lemma {:induction false} FrontOfDistinct(hashes: seq<Hash>)
    requires Distinct(hashes)
    ensures Front(hashes) == hashes
    decreases |hashes|
  {
    if |hashes| > 0 {
      var front, last := hashes[..|hashes| - 1], hashes[|hashes| - 1];
      FrontOfDistinct(front);
      WithoutNothing(front, {last});
    }
  }

  lemma {:induction false} LeadingOfMore(present: set<Hash>, more: set<Hash>, hashes: seq<Hash>, extension: seq<Hash>)
    requires present <= more
    ensures Leading(present, hashes) <= Leading(more, hashes + extension)
    decreases |hashes|
  {
    if |hashes| > 0 {
      assert (hashes + extension)[1..] == hashes[1..] + extension;
      LeadingOfMore(present, more, hashes[1..], extension);
    }
  }

  // After a chain of distinct hashes is served, exactly its first `budget`
  // blocks are found again.
  lemma ServedThenFound(c: Cache, hashes: seq<Hash>, budget: nat)
    requires Sound(c) && Distinct(hashes)
    ensures Lookup(Serve(c, hashes, budget), hashes) == if |hashes| <= budget then |hashes| else budget
  {
    hide Serve, Order, Sound, Without, Front;
    ServeRefines(c, hashes, budget);
    FrontOfDistinct(hashes);
    var order := Order(Serve(c, hashes, budget).stamps);
    var n := if |hashes| <= budget then |hashes| else budget;
    var keys := Serve(c, hashes, budget).stamps.Keys;
    forall i | 0 <= i < n ensures hashes[i] in keys {
      assert order[i] == hashes[i];
    }
    if n < |hashes| {
      assert order == hashes[..n];
      forall i | 0 <= i < n ensures order[i] != hashes[n] {
      }
      assert hashes[n] !in order;
    }
    LeadingIs(keys, hashes, n);
  }

  // -------- inclusion --------

  lemma ServedInclusion(small: seq<Hash>, big: seq<Hash>, hashes: seq<Hash>, budget: nat, larger: nat)
    requires small <= big && budget <= larger
    ensures Served(small, hashes, budget) <= Served(big, hashes, larger)
  {
    assert big == small + big[|small|..];
    WithoutConcat(small, big[|small|..], SetOf(hashes));
  }

  lemma LookupInclusion(c: Cache, d: Cache, hashes: seq<Hash>)
    requires Order(c.stamps) <= Order(d.stamps)
    ensures Lookup(c, hashes) <= Lookup(d, hashes)
  {
    forall h | h in c.stamps ensures h in d.stamps {
      assert h in Order(c.stamps);
      assert h in Order(d.stamps);
    }
    assert hashes + [] == hashes;
    LeadingOfMore(c.stamps.Keys, d.stamps.Keys, hashes, []);
  }

  // A run of requests served under one budget, with the hits of each.
  ghost function ServeAll(requests: seq<seq<Hash>>, budget: nat): (Cache, seq<nat>) {
    if |requests| == 0 then (EMPTY, [])
    else
      var (c, hits) := ServeAll(requests[..|requests| - 1], budget);
      var request := requests[|requests| - 1];
      (Serve(c, request, budget), hits + [Lookup(c, request)])
  }

  // The smaller cache is always a recency prefix of the larger one, so a
  // larger budget never shortens a match.
  lemma {:induction false} LruInclusion(requests: seq<seq<Hash>>, budget: nat, larger: nat)
    requires budget <= larger
    ensures var (c, hits) := ServeAll(requests, budget);
            var (d, more) := ServeAll(requests, larger);
            && Sound(c) && Sound(d)
            && Order(c.stamps) <= Order(d.stamps)
            && |hits| == |more| == |requests|
            && forall i :: 0 <= i < |requests| ==> hits[i] <= more[i]
    decreases |requests|
  {
    hide Serve, Sound, Order, Served;
    if |requests| == 0 {
      EmptyList();
    } else {
      var front, request := requests[..|requests| - 1], requests[|requests| - 1];
      LruInclusion(front, budget, larger);
      var c, d := ServeAll(front, budget).0, ServeAll(front, larger).0;
      ServeRefines(c, request, budget);
      ServeRefines(d, request, larger);
      ServeIsSound(c, request, budget);
      ServeIsSound(d, request, larger);
      ServedInclusion(Order(c.stamps), Order(d.stamps), request, budget, larger);
      LookupInclusion(c, d, request);
    }
  }

  lemma NothingFound(hashes: seq<Hash>)
    ensures Lookup(EMPTY, hashes) == 0
  {
  }

  // A run in which a present-only refresh helps the larger cache more.
  function RefreshRun(budget: nat): seq<Op> {
    [Insert([1]), Insert([2]), Insert([3]), Evict(budget), Match([1, 2]), Insert([4]), Evict(budget), Peek([3])]
  }

  lemma RunListNext(ops: seq<Op>, i: nat, order: seq<Hash>, told: seq<nat>)
    requires i < |ops| && RunList(ops[..i]) == (order, told)
    ensures RunList(ops[..i + 1]) == ListStep(order, told, ops[i])
  {
    assert ops[..i + 1][..i] == ops[..i];
  }

  lemma InsertNew(order: seq<Hash>, told: seq<nat>, h: Hash)
    requires h !in order
    ensures ListStep(order, told, Insert([h])) == ([h] + order, told)
  {
    FrontOfDistinct([h]);
    assert SetOf([h]) == {h};
    WithoutNothing(order, {h});
  }

  lemma {:induction false} WithoutAll(order: seq<Hash>, gone: set<Hash>)
    requires forall h :: h in order ==> h in gone
    ensures Without(order, gone) == []
    decreases |order|
  {
    if |order| > 0 {
      WithoutAll(order[1..], gone);
    }
  }

  lemma RefreshSmall()
    ensures ListStep([3, 2], [], Match([1, 2])) == ([3, 2], [0])
  {
    LeadingIs(SetOf([3, 2]), [1, 2], 0);
    assert [1, 2][..0] == [] && SetOf([]) == {};
    WithoutNothing([3, 2], {});
    assert [] + [3, 2] == [3, 2] && [] + [0] == [0];
  }

  lemma RefreshLarge()
    ensures ListStep([3, 2, 1], [], Match([1, 2])) == ([1, 2, 3], [2])
  {
    LeadingIs(SetOf([3, 2, 1]), [1, 2], 2);
    assert [1, 2][..2] == [1, 2];
    FrontOfDistinct([1, 2]);
    WithoutConcat([3], [2, 1], SetOf([1, 2]));
    WithoutNothing([3], SetOf([1, 2]));
    assert [3] + [2, 1] == [3, 2, 1];
    WithoutAll([2, 1], SetOf([1, 2]));
    assert [1, 2] + ([3] + []) == [1, 2, 3] && [] + [2] == [2];
  }

  lemma RefreshRunStart(budget: nat)
    ensures RunList(RefreshRun(budget)[..3]) == ([3, 2, 1], [])
  {
    hide RunList, ListStep;
    var ops := RefreshRun(budget);
    assert ops[..0] == [];
    NothingRun();
    InsertNew([], [], 1);
    RunListNext(ops, 0, [], []);
    assert [1] + [] == [1];
    InsertNew([1], [], 2);
    RunListNext(ops, 1, [1], []);
    assert [2] + [1] == [2, 1];
    InsertNew([2, 1], [], 3);
    RunListNext(ops, 2, [2, 1], []);
    assert [3] + [2, 1] == [3, 2, 1];
  }

  lemma NothingRun()
    ensures RunList([]) == ([], [])
  {
  }

  lemma EvictStep(order: seq<Hash>, told: seq<nat>, budget: nat)
    ensures ListStep(order, told, Evict(budget)) == (Kept(order, budget), told)
  {
  }

  lemma PeekStep(order: seq<Hash>, told: seq<nat>, h: Hash)
    ensures ListStep(order, told, Peek([h])) == (order, told + [if h in order then 1 else 0])
  {
    LeadingIs(SetOf(order), [h], if h in order then 1 else 0);
  }

  lemma SmallRefreshRun()
    ensures RunList(RefreshRun(2)).1 == [0, 1]
  {
    hide RunList, ListStep;
    var ops := RefreshRun(2);
    RefreshRunStart(2);
    RunListNext(ops, 3, [3, 2, 1], []);
    EvictStep([3, 2, 1], [], 2);
    assert [3, 2, 1][..2] == [3, 2];
    RefreshSmall();
    RunListNext(ops, 4, [3, 2], []);
    InsertNew([3, 2], [0], 4);
    RunListNext(ops, 5, [3, 2], [0]);
    assert [4] + [3, 2] == [4, 3, 2];
    RunListNext(ops, 6, [4, 3, 2], [0]);
    EvictStep([4, 3, 2], [0], 2);
    assert [4, 3, 2][..2] == [4, 3];
    PeekStep([4, 3], [0], 3);
    RunListNext(ops, 7, [4, 3], [0]);
    assert ops[..8] == ops;
  }

  lemma LargeRefreshRun()
    ensures RunList(RefreshRun(3)).1 == [2, 0]
  {
    hide RunList, ListStep;
    var ops := RefreshRun(3);
    RefreshRunStart(3);
    RunListNext(ops, 3, [3, 2, 1], []);
    EvictStep([3, 2, 1], [], 3);
    RefreshLarge();
    RunListNext(ops, 4, [3, 2, 1], []);
    InsertNew([1, 2, 3], [2], 4);
    RunListNext(ops, 5, [1, 2, 3], [2]);
    assert [4] + [1, 2, 3] == [4, 1, 2, 3];
    RunListNext(ops, 6, [4, 1, 2, 3], [2]);
    EvictStep([4, 1, 2, 3], [2], 3);
    assert [4, 1, 2, 3][..3] == [4, 1, 2];
    PeekStep([4, 1, 2], [2], 3);
    RunListNext(ops, 7, [4, 1, 2], [2]);
    assert ops[..8] == ops;
  }

  // Inclusion is about requests that are served. With `match_prefix` in the
  // run, the larger cache can lose a block that the smaller one keeps.
  lemma RefreshBreaksInclusion()
    ensures RunCache(RefreshRun(2)).1 == [0, 1]
    ensures RunCache(RefreshRun(3)).1 == [2, 0]
  {
    CacheIsRecencyList(RefreshRun(2));
    CacheIsRecencyList(RefreshRun(3));
    SmallRefreshRun();
    LargeRefreshRun();
  }
}

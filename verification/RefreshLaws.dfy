// LRU inclusion for runs that also refresh with `match_prefix`: on
// parent-consistent chains the smaller cache always holds a part of what the
// larger one holds, in the same order, and never matches more.
module RefreshLaws {
  import opened LruCache
  import opened Recency
  import opened CacheLaws
  import opened RadixEquivalence

  // What a replica's cache or a router's picture is asked.
  datatype Ask = Serving(chain: seq<Hash>) | Refreshing(chain: seq<Hash>) | Peeking(chain: seq<Hash>)

  ghost function AnswerStep(c: Cache, ask: Ask, budget: nat): Cache {
    match ask
    case Serving(chain) => Serve(c, chain, budget)
    case Refreshing(chain) => MatchPrefix(c, chain)
    case Peeking(_) => c
  }

  // A run under one budget, with the match each ask found.
  ghost function AnswerAll(asks: seq<Ask>, budget: nat): (Cache, seq<nat>) {
    if |asks| == 0 then (EMPTY, [])
    else
      var (c, hits) := AnswerAll(asks[..|asks| - 1], budget);
      var ask := asks[|asks| - 1];
      (AnswerStep(c, ask, budget), hits + [Lookup(c, ask.chain)])
  }

  predicate AsksOver(world: seq<seq<Hash>>, asks: seq<Ask>) {
    forall ask :: ask in asks ==> ask.chain in world || ask.chain == []
  }

  // -------- lists with blocks left out --------

  // `small` is `large` with some blocks left out.
  ghost predicate Thinned(small: seq<Hash>, large: seq<Hash>) {
    exists gone :: small == Without(large, gone)
  }

  lemma {:induction false} OmitsNoMore(order: seq<Hash>, touched: set<Hash>, gone: set<Hash>)
    ensures |Without(order, touched)| - |Without(Without(order, touched), gone)| <= |order| - |Without(order, gone)|
    decreases |order|
  {
    if |order| > 0 {
      OmitsNoMore(order[1..], touched, gone);
    }
  }

  // Touching the same chain puts back what was left out of it.
  lemma TouchedThinned(small: seq<Hash>, large: seq<Hash>, gone: set<Hash>, hashes: seq<Hash>)
    requires small == Without(large, gone)
    ensures Touched(small, hashes) == Without(Touched(large, hashes), gone - SetOf(hashes))
    ensures |Touched(large, hashes)| - |Touched(small, hashes)| <= |large| - |small|
  {
    hide Touched, Front, Without, SetOf;
    var touched := SetOf(hashes);
    TouchedIs(small, hashes);
    TouchedIs(large, hashes);
    WithoutConcat(Front(hashes), Without(large, touched), gone - touched);
    FrontIsTouched(hashes);
    WithoutNothing(Front(hashes), gone - touched);
    WithoutTwice(large, touched, gone - touched);
    WithoutTwice(large, gone, touched);
    WithoutTwice(large, touched, gone);
    assert touched + (gone - touched) == gone + touched == touched + gone;
    OmitsNoMore(large, touched, gone);
  }

  lemma TouchedIs(order: seq<Hash>, hashes: seq<Hash>)
    ensures Touched(order, hashes) == Front(hashes) + Without(order, SetOf(hashes))
  {
  }

  lemma FrontIsTouched(hashes: seq<Hash>)
    ensures forall h :: h in Front(hashes) ==> h in SetOf(hashes)
  {
  }

  lemma WithoutTail(order: seq<Hash>, budget: nat)
    requires Distinct(order) && budget <= |order|
    ensures Without(order, SetOf(order[budget..])) == order[..budget]
  {
    var tail := SetOf(order[budget..]);
    assert order == order[..budget] + order[budget..];
    WithoutConcat(order[..budget], order[budget..], tail);
    WithoutNothing(order[..budget], tail);
    WithoutAll(order[budget..], tail);
  }

  // Cutting both lists: the larger one keeps all that the smaller one keeps,
  // as it has at most the difference of the budgets in between.
  lemma CutThinned(small: seq<Hash>, large: seq<Hash>, gone: set<Hash>, budget: nat, larger: nat)
    requires Distinct(small) && small == Without(large, gone)
    requires |large| - |small| <= larger - budget
    ensures Thinned(Kept(small, budget), Kept(large, larger))
  {
    hide Without;
    if |small| > budget {
      var cut := if |large| <= larger then |large| else larger;
      var kept, rest := large[..cut], large[cut..];
      assert large == kept + rest;
      WithoutConcat(kept, rest, gone);
      var part := Without(kept, gone);
      assert |part| >= budget;
      assert part == small[..|part|];
      WithoutTail(part, budget);
      WithoutTwice(kept, gone, SetOf(part[budget..]));
      assert part[..budget] == small[..budget] == Kept(small, budget);
      assert kept == Kept(large, larger);
      assert Kept(small, budget) == Without(Kept(large, larger), gone + SetOf(part[budget..]));
    }
  }

  // Refreshing what each list holds of a chain, when the smaller one holds
  // exactly its first n blocks and the larger one at least its first m.
  lemma RefreshThinned(small: seq<Hash>, large: seq<Hash>, gone: set<Hash>, chain: seq<Hash>, n: nat, m: nat)
    requires small == Without(large, gone) && Distinct(chain) && n <= m <= |chain|
    requires forall i :: 0 <= i < |chain| ==> (chain[i] in small <==> i < n)
    requires forall i :: 0 <= i < m ==> chain[i] in large
    ensures Touched(small, chain[..n]) == Without(Touched(large, chain[..m]), gone)
  {
    hide Touched, Front, Without, SetOf;
    TouchedIs(small, chain[..n]);
    TouchedIs(large, chain[..m]);
    FrontOfDistinct(chain[..n]);
    FrontOfDistinct(chain[..m]);
    WithoutConcat(chain[..m], Without(large, SetOf(chain[..m])), gone);
    HitsLeft(chain[..m], n, small, large, gone);
    WithoutTwice(large, SetOf(chain[..m]), gone);
    WithoutTwice(large, gone, SetOf(chain[..m]));
    assert SetOf(chain[..m]) + gone == gone + SetOf(chain[..m]);
    MissesDoNotMatter(chain[..m], n, small);
    assert chain[..m][..n] == chain[..n];
  }

  // Of the larger list's hits, the smaller one has left out all but its own.
  lemma HitsLeft(hits: seq<Hash>, n: nat, small: seq<Hash>, large: seq<Hash>, gone: set<Hash>)
    requires small == Without(large, gone) && n <= |hits|
    requires forall i :: 0 <= i < |hits| ==> hits[i] in large && (hits[i] in small <==> i < n)
    ensures Without(hits, gone) == hits[..n]
  {
    hide Without;
    assert hits == hits[..n] + hits[n..];
    WithoutConcat(hits[..n], hits[n..], gone);
    forall h | h in hits[..n] ensures h !in gone {
      assert h in small;
    }
    WithoutNothing(hits[..n], gone);
    forall h | h in hits[n..] ensures h in gone {
      var i :| n <= i < |hits| && hits[i] == h;
      assert h in large && h !in small;
    }
    WithoutAll(hits[n..], gone);
  }

  lemma MissesDoNotMatter(hits: seq<Hash>, n: nat, small: seq<Hash>)
    requires n <= |hits|
    requires forall i :: 0 <= i < |hits| ==> (hits[i] in small <==> i < n)
    ensures Without(small, SetOf(hits)) == Without(small, SetOf(hits[..n]))
  {
    hide Without;
    var misses := SetOf(hits[n..]);
    assert hits == hits[..n] + hits[n..];
    assert SetOf(hits) == SetOf(hits[..n]) + misses;
    WithoutTwice(small, SetOf(hits[..n]), misses);
    assert forall i :: 0 <= i < |hits[n..]| ==> hits[n..][i] == hits[n + i] && hits[n..][i] !in small;
    assert forall h :: h in misses ==> h !in small;
    WithoutNothing(Without(small, SetOf(hits[..n])), misses);
  }

  // -------- the invariant --------

  // The caches hold the same list, or the smaller one is full and holds the
  // larger one's list with some blocks left out.
  ghost predicate Nested(c: Cache, d: Cache, budget: nat, larger: nat) {
    && Sound(c) && Sound(d) && |c.stamps| <= budget && |d.stamps| <= larger
    && Thinned(Order(c.stamps), Order(d.stamps))
    && (Order(c.stamps) == Order(d.stamps) || |c.stamps| == budget)
  }

  lemma OrderIsDistinct(stamps: map<Hash, Stamp>)
    ensures Distinct(Order(stamps))
  {
    OrderIsRanked(stamps);
    var order := Order(stamps);
    forall i, j | 0 <= i < j < |order| ensures order[i] != order[j] {
      assert Outranks(stamps, order[i], order[j]);
    }
  }

  lemma TouchOnlyGrows(c: Cache, hashes: seq<Hash>)
    ensures |Touch(c, hashes).stamps| >= |c.stamps|
    ensures (forall h :: h in hashes ==> h in c.stamps) ==> |Touch(c, hashes).stamps| == |c.stamps|
  {
    hide Touch;
    TouchStamps(c, hashes);
    var before, after := c.stamps.Keys, Touch(c, hashes).stamps.Keys;
    assert after == before + (after - before);
    assert |after| == |before| + |after - before|;
    if forall h :: h in hashes ==> h in c.stamps {
      assert after == before;
    }
  }

  lemma LookupNested(c: Cache, d: Cache, budget: nat, larger: nat, hashes: seq<Hash>)
    requires Nested(c, d, budget, larger)
    ensures Lookup(c, hashes) <= Lookup(d, hashes)
  {
    hide Sound;
    forall h | h in c.stamps ensures h in d.stamps {
      assert h in Order(c.stamps);
      assert h in Order(d.stamps);
    }
    assert hashes + [] == hashes;
    LeadingOfMore(c.stamps.Keys, d.stamps.Keys, hashes, []);
  }

  lemma ServeNested(c: Cache, d: Cache, budget: nat, larger: nat, hashes: seq<Hash>)
    requires Nested(c, d, budget, larger) && budget <= larger
    ensures Nested(Serve(c, hashes, budget), Serve(d, hashes, larger), budget, larger)
  {
    hide Sound, Serve, Touch, Order, Touched, Without;
    var small, large := Order(c.stamps), Order(d.stamps);
    var gone :| small == Without(large, gone);
    TouchedThinned(small, large, gone, hashes);
    TouchRefines(c, hashes);
    OrderIsDistinct(Touch(c, hashes).stamps);
    CutThinned(Touched(small, hashes), Touched(large, hashes), gone - SetOf(hashes), budget, larger);
    ServeRefines(c, hashes, budget);
    ServeRefines(d, hashes, larger);
    ServeIsSound(c, hashes, budget);
    ServeIsSound(d, hashes, larger);
    TouchOnlyGrows(c, hashes);
  }

  lemma MatchNested(world: seq<seq<Hash>>, c: Cache, d: Cache, budget: nat, larger: nat, chain: seq<Hash>)
    requires Nested(c, d, budget, larger) && TreeLike(world, c) && RootPath(world, chain)
    ensures Nested(MatchPrefix(c, chain), MatchPrefix(d, chain), budget, larger)
  {
    hide Sound, Touch, Order, Touched, Without, Lookup, Rooted, TicksArePaths, Path, Leading;
    var small, large := Order(c.stamps), Order(d.stamps);
    var gone :| small == Without(large, gone);
    var n, m := Lookup(c, chain), Lookup(d, chain);
    LookupNested(c, d, budget, larger, chain);
    LookupIsLeading(c, chain);
    LookupIsLeading(d, chain);
    forall i | 0 <= i < |chain| ensures chain[i] in small <==> i < n {
      PresentPartIsPrefix(world, c.stamps, chain, i);
    }
    forall i, j | 0 <= i < j < |chain| ensures chain[i] != chain[j] {
      RootPathIsDistinct(world, chain, i, j);
    }
    RefreshThinned(small, large, gone, chain, n, m);
    TouchRefines(c, chain[..n]);
    TouchRefines(d, chain[..m]);
    TouchIsSound(c, chain[..n]);
    TouchIsSound(d, chain[..m]);
    TouchOnlyGrows(c, chain[..n]);
    TouchOnlyGrows(d, chain[..m]);
    if small == large {
      OrderHoldsKeys(c.stamps);
      OrderHoldsKeys(d.stamps);
    }
  }

  lemma LookupIsLeading(c: Cache, chain: seq<Hash>)
    ensures Lookup(c, chain) == Leading(c.stamps.Keys, chain) <= |chain|
    ensures forall i :: 0 <= i < Lookup(c, chain) ==> chain[i] in c.stamps
  {
  }

  lemma {:induction false} EvictKeepsTreeLike(world: seq<seq<Hash>>, c: Cache, budget: nat)
    requires TreeLike(world, c)
    ensures TreeLike(world, EvictTo(c, budget))
    decreases |c.heap|
  {
    hide Sound, Rooted, TicksArePaths, IsVictim, PopOne;
    if |c.stamps| > budget {
      PopEvicts(c);
      PopIsSound(c);
      var d := PopOne(c);
      if d.stamps != c.stamps {
        var v :| IsVictim(c.stamps, v) && d.stamps == c.stamps - {v};
        VictimKeepsTreeLike(world, c.stamps, v);
      }
      EvictKeepsTreeLike(world, d, budget);
    }
  }

  lemma StepNested(world: seq<seq<Hash>>, c: Cache, d: Cache, budget: nat, larger: nat, ask: Ask)
    requires Nested(c, d, budget, larger) && TreeLike(world, c) && RootPath(world, ask.chain) && budget <= larger
    ensures Nested(AnswerStep(c, ask, budget), AnswerStep(d, ask, larger), budget, larger)
    ensures TreeLike(world, AnswerStep(c, ask, budget))
  {
    hide Nested, TreeLike, RootPath, Touch, EvictTo, MatchPrefix;
    match ask
    case Serving(chain) =>
      ServeNested(c, d, budget, larger, chain);
      TouchKeepsTreeLike(world, c, chain);
      EvictKeepsTreeLike(world, Touch(c, chain), budget);
    case Refreshing(chain) =>
      MatchNested(world, c, d, budget, larger, chain);
      RefreshKeepsTreeLike(world, c, chain);
    case Peeking(_) =>
  }

  lemma RefreshKeepsTreeLike(world: seq<seq<Hash>>, c: Cache, chain: seq<Hash>)
    requires TreeLike(world, c) && RootPath(world, chain)
    ensures TreeLike(world, MatchPrefix(c, chain))
  {
    hide TreeLike, Touch, Path;
    var hits := chain[..Lookup(c, chain)];
    forall i | 0 <= i < |hits| ensures Path(world, hits[i]) == hits[..i + 1] {
      assert hits[..i + 1] == chain[..i + 1];
    }
    TouchKeepsTreeLike(world, c, hits);
  }

  // Over every run of served, refreshing and peeking requests on
  // parent-consistent chains, the cache with the smaller budget holds the
  // larger one's recency list with some blocks left out, and no answer of it
  // exceeds the larger one's.
  lemma {:induction false} RefreshKeepsInclusion(world: seq<seq<Hash>>, asks: seq<Ask>, budget: nat, larger: nat)
    requires Consistent(world) && AsksOver(world, asks) && budget <= larger
    ensures var (c, hits) := AnswerAll(asks, budget);
            var (d, more) := AnswerAll(asks, larger);
            && TreeLike(world, c) && Nested(c, d, budget, larger)
            && Thinned(Order(c.stamps), Order(d.stamps))
            && |hits| == |more| == |asks|
            && forall i :: 0 <= i < |asks| ==> hits[i] <= more[i]
    decreases |asks|
  {
    hide Consistent, TreeLike, RootPath, AnswerStep, Order, Lookup, Sound;
    if |asks| == 0 {
      EmptyNested(world, budget, larger);
    } else {
      var front, ask := asks[..|asks| - 1], asks[|asks| - 1];
      RefreshKeepsInclusion(world, front, budget, larger);
      assert ask in asks;
      ChainIsRootPath(world, ask.chain);
      var c, d := AnswerAll(front, budget).0, AnswerAll(front, larger).0;
      LookupNested(c, d, budget, larger, ask.chain);
      StepNested(world, c, d, budget, larger, ask);
    }
  }

  lemma EmptyNested(world: seq<seq<Hash>>, budget: nat, larger: nat)
    ensures TreeLike(world, EMPTY) && Nested(EMPTY, EMPTY, budget, larger)
  {
    EmptySimulates(world);
    EmptyList();
    WithoutNothing([], {});
  }
}

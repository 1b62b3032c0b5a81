// Parent-consistency is exactly what LRU inclusion needs once there are other
// blocks to request: two chains that are not consistent with each other give
// a run of serving and refreshing in which the larger cache loses a block
// that the smaller one keeps.
module InclusionExactness {
  import opened LruCache
  import opened Recency
  import opened CacheLaws
  import opened RadixEquivalence
  import opened RefreshLaws

  // -------- a chain jumps ahead in a list --------

  // How many leading blocks of `chain` the first t entries of `list` hold.
  function Reach(list: seq<Hash>, chain: seq<Hash>, t: nat): (n: nat)
    requires t <= |list|
    ensures n <= |chain|
  {
    Leading(SetOf(list[..t]), chain)
  }

  // Entry t completes two or more further blocks of `chain`.
  predicate JumpsAt(list: seq<Hash>, chain: seq<Hash>, t: nat) {
    t < |list| && Reach(list, chain, t + 1) >= Reach(list, chain, t) + 2
  }

  // The recency list after `a` and then `b` have been served.
  function Both(a: seq<Hash>, b: seq<Hash>): (list: seq<Hash>)
    ensures |list| <= |a| + |b|
  {
    b + Without(a, SetOf(b))
  }

  ghost predicate Jumps(a: seq<Hash>, b: seq<Hash>) {
    exists t: nat :: JumpsAt(Both(a, b), a, t)
  }

  lemma {:induction false} SomeStepJumps(list: seq<Hash>, chain: seq<Hash>, lo: nat, hi: nat)
    requires lo <= hi <= |list|
    requires Reach(list, chain, hi) > Reach(list, chain, lo) + hi - lo
    ensures exists t: nat :: lo <= t < hi && JumpsAt(list, chain, t)
    decreases hi
  {
    hide Reach;
    if lo < hi {
      if JumpsAt(list, chain, hi - 1) {
      } else {
        SomeStepJumps(list, chain, lo, hi - 1);
      }
    }
  }

  lemma ReachIs(list: seq<Hash>, chain: seq<Hash>, t: nat, n: nat)
    requires t <= |list| && n <= |chain|
    requires forall i :: 0 <= i < n ==> chain[i] in list[..t]
    ensures Reach(list, chain, t) >= n
    ensures n < |chain| && chain[n] !in list[..t] ==> Reach(list, chain, t) == n
  {
    LeadingIs(SetOf(list[..t]), chain, n);
  }

  lemma BothSplits(a: seq<Hash>, b: seq<Hash>, j: nat)
    requires j < |a| && a[j] !in b
    ensures Both(a, b) == b + Without(a[..j], SetOf(b)) + [a[j]] + Without(a[j + 1..], SetOf(b))
  {
    assert a == a[..j] + ([a[j]] + a[j + 1..]);
    WithoutConcat(a[..j], [a[j]] + a[j + 1..], SetOf(b));
    WithoutConcat([a[j]], a[j + 1..], SetOf(b));
    WithoutNothing([a[j]], SetOf(b));
  }

  // All of `a` before a[j], but not a[j], is in `b` or listed behind it.
  lemma HeldBefore(a: seq<Hash>, b: seq<Hash>, j: nat)
    requires Distinct(a) && j < |a| && a[j] !in b
    ensures forall i :: 0 <= i < j ==> a[i] in b + Without(a[..j], SetOf(b))
    ensures a[j] !in b + Without(a[..j], SetOf(b))
  {
    hide Without;
    assert forall i :: 0 <= i < j ==> a[..j][i] == a[i];
  }

  // A block of `a` outside `b` that is followed by one inside `b`.
  lemma GapJumps(a: seq<Hash>, b: seq<Hash>, j: nat)
    requires Distinct(a) && j + 1 < |a| && a[j] !in b && a[j + 1] in b
    ensures Jumps(a, b)
  {
    hide Without, Both, Reach, Distinct;
    var list, held := Both(a, b), b + Without(a[..j], SetOf(b));
    var t := |held|;
    BothSplits(a, b, j);
    HeldBefore(a, b, j);
    assert list[..t] == held && list[..t + 1] == held + [a[j]];
    ReachIs(list, a, t, j);
    ReachIs(list, a, t + 1, j + 2);
    assert JumpsAt(list, a, t);
  }

  // No such gap: what `a` shares with `b` is a prefix of `a`.
  lemma {:induction false} NoGapIsPrefix(a: seq<Hash>, b: seq<Hash>, i: nat)
    requires forall j :: 0 <= j < |a| - 1 && a[j] !in b ==> a[j + 1] !in b
    requires i < |a|
    ensures a[i] in b <==> i < Leading(SetOf(b), a)
    decreases i
  {
    if i == 0 {
      LeadingIs(SetOf(b), a, 0);
    } else {
      NoGapIsPrefix(a, b, i - 1);
      var n := Leading(SetOf(b), a);
      assert n < |a| ==> a[n] !in b;
    }
  }

  // The chains share their first p and q blocks, in different orders: at the
  // first difference the blocks of `a` fall behind, and they must catch up.
  lemma PermutedPrefixJumps(a: seq<Hash>, b: seq<Hash>, p: nat, q: nat, d: nat)
    requires Distinct(a) && Distinct(b) && d < q <= p <= |a| && q <= |b|
    requires a[..d] == b[..d] && a[d] != b[d]
    requires forall i :: 0 <= i < p ==> a[i] in b[..q]
    ensures Jumps(a, b)
  {
    hide Without, Reach;
    var list := Both(a, b);
    assert list[..q] == b[..q] && list[..d + 1] == b[..d + 1];
    forall i | 0 <= i < d ensures a[i] in list[..d + 1] {
      assert b[..d + 1][i] == b[..d][i] == a[..d][i];
    }
    assert forall i :: 0 <= i < d ==> b[i] == a[i];
    assert a[d] !in b[..d + 1];
    ReachIs(list, a, d + 1, d);
    ReachIs(list, a, q, p);
    SomeStepJumps(list, a, d + 1, q);
  }

  lemma {:induction false} FirstDifference(a: seq<Hash>, b: seq<Hash>, n: nat) returns (d: nat)
    requires n <= |a| && n <= |b| && a[..n] != b[..n]
    ensures d < n && a[..d] == b[..d] && a[d] != b[d]
    decreases n
  {
    if a[..n - 1] != b[..n - 1] {
      d := FirstDifference(a, b, n - 1);
    } else {
      d := n - 1;
      assert a[..n] == a[..d] + [a[d]] && b[..n] == b[..d] + [b[d]];
    }
  }

  ghost predicate Clash(a: seq<Hash>, k: nat, b: seq<Hash>, l: nat) {
    k < |a| && l < |b| && a[k] == b[l] && a[..k + 1] != b[..l + 1]
  }

  lemma EqualPrefixesAgree(a: seq<Hash>, k: nat, b: seq<Hash>, l: nat, n: nat)
    requires Distinct(a) && k < |a| && l < n <= |a| && n <= |b| && a[k] == b[l]
    ensures a[..n] == b[..n] ==> a[..k + 1] == b[..l + 1]
  {
    if a[..n] == b[..n] {
      assert a[l] == a[..n][l] == b[..n][l] == a[k];
      assert a[..k + 1] == a[..n][..k + 1] == b[..l + 1];
    }
  }

  // Without gaps in either chain, the one that shares more jumps.
  lemma PrefixesJump(a: seq<Hash>, k: nat, b: seq<Hash>, l: nat, p: nat, q: nat)
    requires Distinct(a) && Distinct(b) && Clash(a, k, b, l)
    requires l < q <= p <= |a| && q <= |b|
    requires forall i :: 0 <= i < |a| ==> (a[i] in b <==> i < p)
    requires forall i :: 0 <= i < |b| ==> (b[i] in a <==> i < q)
    ensures Jumps(a, b)
  {
    hide Jumps;
    EqualPrefixesAgree(a, k, b, l, q);
    var d := FirstDifference(a, b, q);
    forall i | 0 <= i < p ensures a[i] in b[..q] {
      var m :| 0 <= m < |b| && b[m] == a[i];
      assert b[m] in a;
      assert b[..q][m] == a[i];
    }
    PermutedPrefixJumps(a, b, p, q, d);
  }

  // Of two chains that clash, one jumps ahead when the other is served next.
  lemma ClashJumps(a: seq<Hash>, k: nat, b: seq<Hash>, l: nat)
    requires Distinct(a) && Distinct(b) && Clash(a, k, b, l)
    ensures Jumps(a, b) || Jumps(b, a)
  {
    hide Jumps, Leading;
    if j: nat :| j + 1 < |a| && a[j] !in b && a[j + 1] in b {
      GapJumps(a, b, j);
    } else if j: nat :| j + 1 < |b| && b[j] !in a && b[j + 1] in a {
      GapJumps(b, a, j);
    } else {
      var p, q := Leading(SetOf(b), a), Leading(SetOf(a), b);
      forall i | 0 <= i < |a| ensures a[i] in b <==> i < p {
        NoGapIsPrefix(a, b, i);
      }
      forall i | 0 <= i < |b| ensures b[i] in a <==> i < q {
        NoGapIsPrefix(b, a, i);
      }
      assert a[k] in b && b[l] in a;
      if q <= p {
        PrefixesJump(a, k, b, l, p, q);
      } else {
        PrefixesJump(b, l, a, k, q, p);
      }
    }
  }

  lemma RestOfDistinct(hashes: seq<Hash>, lo: nat, hi: nat)
    requires Distinct(hashes) && lo <= hi <= |hashes|
    ensures Distinct(hashes[lo..hi])
    ensures lo > 0 ==> hashes[0] !in hashes[lo..hi]
    ensures forall h :: h in hashes[lo..hi] ==> h in hashes
  {
  }

  // -------- the run that shows it --------

  ghost predicate Holds(c: Cache, order: seq<Hash>) {
    Sound(c) && Order(c.stamps) == order
  }

  lemma ServeHolds(c: Cache, order: seq<Hash>, hashes: seq<Hash>, budget: nat)
    requires Holds(c, order)
    ensures Holds(Serve(c, hashes, budget), Served(order, hashes, budget))
  {
    hide Sound, Order, Serve, Served;
    ServeRefines(c, hashes, budget);
    ServeIsSound(c, hashes, budget);
  }

  lemma RefreshHolds(c: Cache, order: seq<Hash>, hashes: seq<Hash>)
    requires Holds(c, order)
    ensures Lookup(c, hashes) == Leading(SetOf(order), hashes)
    ensures Holds(MatchPrefix(c, hashes), Touched(order, hashes[..Leading(SetOf(order), hashes)]))
  {
    hide Sound, Order, Touch, Touched, Leading;
    OrderHoldsKeys(c.stamps);
    TouchRefines(c, hashes[..Lookup(c, hashes)]);
    TouchIsSound(c, hashes[..Lookup(c, hashes)]);
  }

  // What a touch does not shorten.
  lemma TouchedIsLonger(c: Cache, order: seq<Hash>, hashes: seq<Hash>)
    requires Holds(c, order)
    ensures |Touched(order, hashes)| >= |order|
    ensures (forall h :: h in hashes ==> h in order) ==> |Touched(order, hashes)| == |order|
  {
    hide Sound, Touch, Touched;
    TouchRefines(c, hashes);
    TouchOnlyGrows(c, hashes);
  }

  lemma AnswerNext(asks: seq<Ask>, ask: Ask, budget: nat)
    ensures AnswerAll(asks + [ask], budget).0 == AnswerStep(AnswerAll(asks, budget).0, ask, budget)
    ensures AnswerAll(asks + [ask], budget).1 == AnswerAll(asks, budget).1 + [Lookup(AnswerAll(asks, budget).0, ask.chain)]
    ensures |AnswerAll(asks, budget).1| == |asks|
  {
    hide AnswerStep, Lookup;
    assert (asks + [ask])[..|asks|] == asks;
    AnswersEach(asks, budget);
  }

  lemma {:induction false} AnswersEach(asks: seq<Ask>, budget: nat)
    ensures |AnswerAll(asks, budget).1| == |asks|
    decreases |asks|
  {
    hide AnswerStep, Lookup;
    if |asks| > 0 {
      AnswersEach(asks[..|asks| - 1], budget);
    }
  }

  // A cut list serves a chain like the whole one, as far as the budget goes.
  lemma CutServes(c: Cache, a: seq<Hash>, b: seq<Hash>, budget: nat)
    requires Holds(c, Kept(a, budget)) && Distinct(b)
    ensures Served(Kept(a, budget), b, budget) == Kept(Both(a, b), budget)
  {
    hide Holds, Touched, Without, Distinct, SetOf;
    var first := Kept(a, budget);
    TouchedIsLonger(c, first, b);
    ServedDistinct(first, b);
    assert a == first + a[|first|..];
    WithoutConcat(first, a[|first|..], SetOf(b));
    assert Both(a, b) == Touched(first, b) + Without(a[|first|..], SetOf(b));
    if |first| < budget {
      assert a[|first|..] == [];
      WithoutNothing([], SetOf(b));
    }
  }

  lemma ServeFirst(a: seq<Hash>, budget: nat)
    requires Distinct(a)
    ensures Holds(Serve(EMPTY, a, budget), Kept(a, budget))
  {
    hide Serve, Touched, Distinct;
    EmptyList();
    ServeHolds(EMPTY, [], a, budget);
    ServedDistinct([], a);
    assert a + [] == a;
  }

  // Serving two chains under a budget leaves their list, cut to the budget.
  lemma ServeBoth(a: seq<Hash>, b: seq<Hash>, budget: nat)
    requires Distinct(a) && Distinct(b)
    ensures var c := AnswerAll([Serving(a), Serving(b)], budget).0;
            Holds(c, Kept(Both(a, b), budget))
  {
    hide Holds, Serve, Served, Kept, Both, Distinct;
    AnswerNext([], Serving(a), budget);
    AnswerNext([Serving(a)], Serving(b), budget);
    assert [] + [Serving(a)] == [Serving(a)] && [Serving(a)] + [Serving(b)] == [Serving(a), Serving(b)];
    ServeFirst(a, budget);
    var c := Serve(EMPTY, a, budget);
    ServeHolds(c, Kept(a, budget), b, budget);
    CutServes(c, a, b, budget);
  }

  lemma ServedDistinct(order: seq<Hash>, chain: seq<Hash>)
    requires Distinct(chain)
    ensures Touched(order, chain) == chain + Without(order, SetOf(chain))
  {
    FrontOfDistinct(chain);
  }

  function Reversed(blocks: seq<Hash>): (r: seq<Hash>)
    ensures forall h :: h in r <==> h in blocks
    ensures |r| == |blocks|
  {
    if |blocks| == 0 then []
    else
      assert blocks == blocks[..|blocks| - 1] + [blocks[|blocks| - 1]];
      [blocks[|blocks| - 1]] + Reversed(blocks[..|blocks| - 1])
  }

  function Fillers(blocks: seq<Hash>): seq<Ask> {
    if |blocks| == 0 then [] else Fillers(blocks[..|blocks| - 1]) + [Serving([blocks[|blocks| - 1]])]
  }

  lemma ServeNew(order: seq<Hash>, h: Hash, budget: nat)
    requires h !in order
    ensures Served(order, [h], budget) == Kept([h] + order, budget)
  {
    ServedDistinct(order, [h]);
    WithoutNothing(order, SetOf([h]));
  }

  // Serving one new block to a full cache pushes out the last one.
  lemma PushOne(front: seq<Hash>, order: seq<Hash>, h: Hash, budget: nat)
    requires |front| < budget == |order|
    requires h !in front && h !in order
    ensures Served(front + order[..budget - |front|], [h], budget) == [h] + front + order[..budget - |front| - 1]
  {
    hide Served;
    ServeNew(front + order[..budget - |front|], h, budget);
  }

  // And k of them its last k.
  lemma {:induction false} FillersPush(asks: seq<Ask>, order: seq<Hash>, blocks: seq<Hash>, budget: nat)
    requires Holds(AnswerAll(asks, budget).0, order) && |order| == budget && |blocks| <= budget
    requires Distinct(blocks) && forall h :: h in blocks ==> h !in order
    ensures Holds(AnswerAll(asks + Fillers(blocks), budget).0, Reversed(blocks) + order[..budget - |blocks|])
    decreases |blocks|
  {
    hide Holds, Served, Serve, AnswerAll, Distinct;
    if |blocks| == 0 {
      assert asks + Fillers(blocks) == asks && Reversed(blocks) + order[..budget] == order;
    } else {
      var front, last := blocks[..|blocks| - 1], blocks[|blocks| - 1];
      LastIsNew(blocks);
      FillersPush(asks, order, front, budget);
      var pushed := Reversed(front) + order[..budget - |front|];
      AnswerNext(asks + Fillers(front), Serving([last]), budget);
      assert asks + Fillers(blocks) == asks + Fillers(front) + [Serving([last])];
      ServeHolds(AnswerAll(asks + Fillers(front), budget).0, pushed, [last], budget);
      PushOne(Reversed(front), order, last, budget);
    }
  }

  lemma LastIsNew(blocks: seq<Hash>)
    requires Distinct(blocks) && |blocks| > 0
    ensures Distinct(blocks[..|blocks| - 1]) && blocks[|blocks| - 1] !in blocks[..|blocks| - 1]
    ensures forall h :: h in blocks[..|blocks| - 1] ==> h in blocks
  {
  }

  // Serve both chains and a block x, refresh the first chain, serve new
  // blocks, and look for x.
  function Witness(a: seq<Hash>, b: seq<Hash>, x: Hash, blocks: seq<Hash>): seq<Ask> {
    [Serving(a), Serving(b), Serving([x]), Refreshing(a)] + Fillers(blocks) + [Peeking([x])]
  }

  // The list once the first chain has been refreshed: x is behind exactly
  // the refreshed blocks.
  ghost function RefreshedList(list: seq<Hash>, a: seq<Hash>, x: Hash, u: nat): seq<Hash>
    requires u <= |list|
  {
    a[..Reach(list, a, u)] + [x] + Without(list[..u], SetOf(a[..Reach(list, a, u)]))
  }

  lemma RefreshMovesList(list: seq<Hash>, a: seq<Hash>, x: Hash, u: nat)
    requires u <= |list| && Distinct(a) && x !in a
    ensures Touched([x] + list[..u], a[..Reach(list, a, u)]) == RefreshedList(list, a, x, u)
  {
    hide Reach, Touched, Without, Distinct;
    var n := Reach(list, a, u);
    RestOfDistinct(a, 0, n);
    ServedDistinct([x] + list[..u], a[..n]);
    WithoutConcat([x], list[..u], SetOf(a[..n]));
    WithoutNothing([x], SetOf(a[..n]));
  }

  lemma ReachWithOther(list: seq<Hash>, a: seq<Hash>, x: Hash, u: nat)
    requires u <= |list| && x !in a
    ensures Leading(SetOf([x] + list[..u]), a) == Reach(list, a, u)
    ensures forall h :: h in a[..Reach(list, a, u)] ==> h in [x] + list[..u]
  {
    LeadingIs(SetOf([x] + list[..u]), a, Reach(list, a, u));
  }

  lemma RefreshMoves(c: Cache, list: seq<Hash>, a: seq<Hash>, x: Hash, u: nat)
    requires u <= |list| && Holds(c, [x] + list[..u]) && Distinct(a) && x !in a
    ensures Holds(MatchPrefix(c, a), RefreshedList(list, a, x, u))
    ensures |RefreshedList(list, a, x, u)| == u + 1
  {
    hide Holds, Distinct, Reach, RefreshedList, Touched, MatchPrefix, Leading;
    RefreshMovesList(list, a, x, u);
    ReachWithOther(list, a, x, u);
    RefreshHolds(c, [x] + list[..u], a);
    TouchedIsLonger(c, [x] + list[..u], a[..Reach(list, a, u)]);
  }

  lemma AfterRefresh(a: seq<Hash>, b: seq<Hash>, x: Hash, u: nat)
    requires Distinct(a) && Distinct(b) && x !in a && x !in b && u <= |Both(a, b)|
    ensures Holds(AnswerAll([Serving(a), Serving(b), Serving([x]), Refreshing(a)], u + 1).0, RefreshedList(Both(a, b), a, x, u))
    ensures |RefreshedList(Both(a, b), a, x, u)| == u + 1
  {
    hide Holds, AnswerAll, Served, MatchPrefix, Serve, Both, RefreshedList;
    var budget, list := u + 1, Both(a, b);
    var two, three := [Serving(a), Serving(b)], [Serving(a), Serving(b), Serving([x])];
    ServeBoth(a, b, budget);
    AnswerNext(two, Serving([x]), budget);
    AnswerNext(three, Refreshing(a), budget);
    assert two + [Serving([x])] == three && three + [Refreshing(a)] == [Serving(a), Serving(b), Serving([x]), Refreshing(a)];
    var c := AnswerAll(two, budget).0;
    ServeHolds(c, Kept(list, budget), [x], budget);
    NotInBoth(a, b, x);
    ServeNew(Kept(list, budget), x, budget);
    assert Kept([x] + Kept(list, budget), budget) == [x] + list[..u];
    RefreshMoves(Serve(c, [x], budget), list, a, x, u);
  }

  lemma NotInBoth(a: seq<Hash>, b: seq<Hash>, x: Hash)
    requires x !in a && x !in b
    ensures x !in Both(a, b)
  {
  }

  lemma XIsLeft(order: seq<Hash>, x: Hash, n: nat, blocks: seq<Hash>)
    requires n < |order| && order[n] == x && |blocks| <= |order| && x !in blocks
    requires forall i :: 0 <= i < |order| && order[i] == x ==> i == n
    ensures x in Reversed(blocks) + order[..|order| - |blocks|] <==> n + |blocks| < |order|
  {
    var left := order[..|order| - |blocks|];
    if n + |blocks| < |order| {
      assert left[n] == x;
    }
  }

  // Under budget u + 1 the run finds x again exactly if there is room for the
  // refreshed blocks, x, and the new blocks.
  lemma WitnessTells(a: seq<Hash>, b: seq<Hash>, x: Hash, blocks: seq<Hash>, u: nat)
    requires Distinct(a) && Distinct(b) && x !in a && x !in b && u <= |Both(a, b)|
    requires Distinct(blocks) && |blocks| <= u + 1
    requires forall h :: h in blocks ==> h != x && h !in a && h !in b
    ensures var (c, told) := AnswerAll(Witness(a, b, x, blocks), u + 1);
            && |told| == |Witness(a, b, x, blocks)|
            && told[|told| - 1] == (if Reach(Both(a, b), a, u) + |blocks| < u + 1 then 1 else 0)
            && (x in Order(c.stamps) <==> Reach(Both(a, b), a, u) + |blocks| < u + 1)
  {
    hide AnswerAll, Both, Reach, Distinct, RefreshedList, Sound, Order, Lookup;
    var start := [Serving(a), Serving(b), Serving([x]), Refreshing(a)];
    var order, n := RefreshedList(Both(a, b), a, x, u), Reach(Both(a, b), a, u);
    AfterRefresh(a, b, x, u);
    NewToRefreshed(a, b, x, blocks, u);
    FillersPush(start, order, blocks, u + 1);
    XIsLeft(order, x, n, blocks);
    var c := AnswerAll(start + Fillers(blocks), u + 1).0;
    LookupOne(c, x);
    AnswerNext(start + Fillers(blocks), Peeking([x]), u + 1);
  }

  lemma LookupOne(c: Cache, x: Hash)
    ensures Lookup(c, [x]) == if x in Order(c.stamps) then 1 else 0
  {
    LeadingIs(c.stamps.Keys, [x], if x in c.stamps then 1 else 0);
  }

  // x stands at one place only, and the new blocks at none.
  lemma NewToRefreshed(a: seq<Hash>, b: seq<Hash>, x: Hash, blocks: seq<Hash>, u: nat)
    requires x !in a && x !in b && u <= |Both(a, b)|
    requires forall h :: h in blocks ==> h != x && h !in a && h !in b
    ensures var order, n := RefreshedList(Both(a, b), a, x, u), Reach(Both(a, b), a, u);
            && n < |order| && order[n] == x
            && (forall i :: 0 <= i < |order| && order[i] == x ==> i == n)
            && forall h :: h in blocks ==> h !in order
  {
    hide Reach;
    NotInBoth(a, b, x);
    var list, n := Both(a, b), Reach(Both(a, b), a, u);
    var rest := Without(list[..u], SetOf(a[..n]));
    assert forall h :: h in rest ==> h in list && (h in a || h in b);
    var order := RefreshedList(list, a, x, u);
    forall i | 0 <= i < |order| && i != n ensures order[i] != x {
      if i < n {
        assert order[i] == a[i];
      } else {
        assert order[i] == rest[i - n - 1];
      }
    }
  }

  // -------- the exact condition --------

  // The list under the smaller budget is the other one with blocks left out.
  ghost predicate ListsNest(asks: seq<Ask>, budget: nat, larger: nat) {
    Thinned(Order(AnswerAll(asks, budget).0.stamps), Order(AnswerAll(asks, larger).0.stamps))
  }

  // No answer under the smaller budget exceeds the other one.
  ghost predicate AnswersNest(asks: seq<Ask>, budget: nat, larger: nat) {
    var hits, more := AnswerAll(asks, budget).1, AnswerAll(asks, larger).1;
    |hits| == |more| && forall i :: 0 <= i < |hits| ==> hits[i] <= more[i]
  }

  // One-block chains of other blocks.
  function Singles(spare: seq<Hash>): (chains: seq<seq<Hash>>)
    ensures |chains| == |spare| && forall i :: 0 <= i < |spare| ==> chains[i] == [spare[i]]
  {
    seq(|spare|, i requires 0 <= i < |spare| => [spare[i]])
  }

  // `spare` holds distinct blocks of no chain, enough of them for any two.
  ghost predicate Spare(world: seq<seq<Hash>>, spare: seq<Hash>) {
    && Distinct(spare)
    && (forall chain, h :: chain in world && h in spare ==> h !in chain)
    && forall a, b :: a in world && b in world ==> |a| + |b| <= |spare|
  }

  lemma {:induction false} FillersOver(world: seq<seq<Hash>>, blocks: seq<Hash>)
    requires forall h :: h in blocks ==> [h] in world
    ensures AsksOver(world, Fillers(blocks))
    decreases |blocks|
  {
    if |blocks| > 0 {
      assert blocks[|blocks| - 1] in blocks;
      FillersOver(world, blocks[..|blocks| - 1]);
    }
  }

  lemma WitnessOver(world: seq<seq<Hash>>, spare: seq<Hash>, a: seq<Hash>, b: seq<Hash>, x: Hash, blocks: seq<Hash>)
    requires a in world && b in world && x in spare && forall h :: h in blocks ==> h in spare
    ensures AsksOver(world + Singles(spare), Witness(a, b, x, blocks))
  {
    var all := world + Singles(spare);
    forall h | h in spare ensures [h] in all {
      var i :| 0 <= i < |spare| && spare[i] == h;
      assert all[|world| + i] == [h];
    }
    FillersOver(all, blocks);
  }

  lemma JumpBreaks(world: seq<seq<Hash>>, spare: seq<Hash>, a: seq<Hash>, b: seq<Hash>)
    returns (asks: seq<Ask>, budget: nat)
    requires a in world && b in world && Spare(world, spare)
    requires Distinct(a) && Distinct(b) && Jumps(a, b)
    ensures AsksOver(world + Singles(spare), asks)
    ensures !ListsNest(asks, budget, budget + 1) && !AnswersNest(asks, budget, budget + 1)
  {
    hide AnswerAll, Witness, Reach, RefreshedList, Both, Holds, Order, Distinct, Thinned;
    var list := Both(a, b);
    var t: nat :| JumpsAt(list, a, t);
    var x, m := spare[0], Reach(list, a, t + 1);
    AfterRefresh(a, b, x, t + 1);
    RefreshedSize(list, a, x, t + 1);
    var blocks := spare[1..t + 3 - m];
    RestOfDistinct(spare, 1, t + 3 - m);
    WitnessOver(world, spare, a, b, x, blocks);
    WitnessTells(a, b, x, blocks, t);
    WitnessTells(a, b, x, blocks, t + 1);
    asks, budget := Witness(a, b, x, blocks), t + 1;
    NotThinned(Order(AnswerAll(asks, budget).0.stamps), Order(AnswerAll(asks, budget + 1).0.stamps), x);
  }

  lemma NotThinned(small: seq<Hash>, large: seq<Hash>, x: Hash)
    requires x in small && x !in large
    ensures !Thinned(small, large)
  {
  }

  lemma RefreshedSize(list: seq<Hash>, a: seq<Hash>, x: Hash, u: nat)
    requires u <= |list|
    ensures Reach(list, a, u) < |RefreshedList(list, a, x, u)|
  {
  }

  // Consistency has no quarrel with chains of other blocks.
  lemma FreshStaysConsistent(world: seq<seq<Hash>>, spare: seq<Hash>)
    requires Consistent(world) && Spare(world, spare)
    ensures Consistent(world + Singles(spare))
  {
    var all := world + Singles(spare);
    forall h, a, k, b, l | Occurs(all, h, a, k) && Occurs(all, h, b, l) ensures a[..k + 1] == b[..l + 1] {
      OldOrNew(world, spare, h, a, k);
      OldOrNew(world, spare, h, b, l);
      if h !in spare {
        assert Occurs(world, h, a, k) && Occurs(world, h, b, l);
      }
    }
  }

  lemma OldOrNew(world: seq<seq<Hash>>, spare: seq<Hash>, h: Hash, a: seq<Hash>, k: nat)
    requires Occurs(world + Singles(spare), h, a, k) && Spare(world, spare)
    ensures if h in spare then a == [h] else a in world
  {
    if a !in world {
      assert a in Singles(spare);
    }
  }

  lemma ConsistentIsDistinct(world: seq<seq<Hash>>, chain: seq<Hash>)
    requires Consistent(world) && chain in world
    ensures Distinct(chain)
  {
    forall i, j | 0 <= i < j < |chain| ensures chain[i] != chain[j] {
      assert Occurs(world, chain[i], chain, i) && Occurs(world, chain[j], chain, j);
      assert |chain[..i + 1]| != |chain[..j + 1]|;
    }
  }

  // With enough other blocks to request, inclusion over all runs and pairs of
  // budgets holds if and only if the chains, none of which repeats a block,
  // are parent-consistent; and so does monotony of the answers alone.
  lemma InclusionExactlyWhenConsistent(world: seq<seq<Hash>>, spare: seq<Hash>)
    requires Spare(world, spare)
    requires forall chain :: chain in world ==> Distinct(chain)
    ensures Consistent(world) <==>
            forall asks, budget: nat, larger: nat :: AsksOver(world + Singles(spare), asks) && budget <= larger ==>
              ListsNest(asks, budget, larger)
    ensures Consistent(world) <==>
            forall asks, budget: nat, larger: nat :: AsksOver(world + Singles(spare), asks) && budget <= larger ==>
              AnswersNest(asks, budget, larger)
  {
    hide ListsNest, AnswersNest, Spare, AsksOver, Distinct;
    if Consistent(world) {
      FreshStaysConsistent(world, spare);
      forall asks, budget: nat, larger: nat | AsksOver(world + Singles(spare), asks) && budget <= larger
        ensures ListsNest(asks, budget, larger) && AnswersNest(asks, budget, larger)
      {
        ConsistentNests(world + Singles(spare), asks, budget, larger);
      }
    } else {
      var asks, budget := ClashBreaks(world, spare);
      assert AsksOver(world + Singles(spare), asks) && budget <= budget + 1;
    }
  }

  lemma ConsistentNests(world: seq<seq<Hash>>, asks: seq<Ask>, budget: nat, larger: nat)
    requires Consistent(world) && AsksOver(world, asks) && budget <= larger
    ensures ListsNest(asks, budget, larger) && AnswersNest(asks, budget, larger)
  {
    hide AnswerAll, Order, Consistent, TreeLike, Nested, AsksOver;
    RefreshKeepsInclusion(world, asks, budget, larger);
  }

  lemma ClashBreaks(world: seq<seq<Hash>>, spare: seq<Hash>) returns (asks: seq<Ask>, budget: nat)
    requires Spare(world, spare) && !Consistent(world)
    requires forall chain :: chain in world ==> Distinct(chain)
    ensures AsksOver(world + Singles(spare), asks)
    ensures !ListsNest(asks, budget, budget + 1) && !AnswersNest(asks, budget, budget + 1)
  {
    hide ListsNest, AnswersNest, Spare, AsksOver, Distinct, Jumps;
    var h, a, k, b, l :| Occurs(world, h, a, k) && Occurs(world, h, b, l) && a[..k + 1] != b[..l + 1];
    ClashJumps(a, k, b, l);
    if Jumps(a, b) {
      asks, budget := JumpBreaks(world, spare, a, b);
    } else {
      asks, budget := JumpBreaks(world, spare, b, a);
    }
  }

  // Consistent chains never repeat a block, so for arbitrary chains
  // consistency is distinctness and inclusion together.
  lemma ConsistentIsDistinctAndNested(world: seq<seq<Hash>>, spare: seq<Hash>)
    requires Spare(world, spare)
    ensures Consistent(world) <==>
            && (forall chain :: chain in world ==> Distinct(chain))
            && forall asks, budget: nat, larger: nat :: AsksOver(world + Singles(spare), asks) && budget <= larger ==>
                 AnswersNest(asks, budget, larger)
  {
    hide AnswersNest, Spare, AsksOver, Distinct;
    if Consistent(world) {
      forall chain | chain in world ensures Distinct(chain) {
        ConsistentIsDistinct(world, chain);
      }
    }
    if forall chain :: chain in world ==> Distinct(chain) {
      InclusionExactlyWhenConsistent(world, spare);
    }
  }
}

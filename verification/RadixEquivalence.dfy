// The flat cache equals the radix tree over every run on parent-consistent
// chains: same blocks, same last accesses, same answers, same evictions.
module RadixEquivalence {
  import opened LruCache
  import opened Recency
  import Tree = RadixTree

  ghost predicate Occurs(world: seq<seq<Hash>>, h: Hash, a: seq<Hash>, k: nat) {
    a in world && k < |a| && a[k] == h
  }

  // Chains are parent-consistent when a hash determines the whole path from
  // the root to it. This is what "modulo collisions" means.
  ghost predicate Consistent(world: seq<seq<Hash>>) {
    forall h, a, k, b, l :: Occurs(world, h, a, k) && Occurs(world, h, b, l) ==> a[..k + 1] == b[..l + 1]
  }

  // The path of `h` from the root.
  ghost function Path(world: seq<seq<Hash>>, h: Hash): (path: seq<Hash>)
    ensures |path| > 0 && path[|path| - 1] == h
  {
    if exists a, k :: Occurs(world, h, a, k) then
      var a, k :| Occurs(world, h, a, k);
      a[..k + 1]
    else [h]
  }

  lemma PathInChain(world: seq<seq<Hash>>, a: seq<Hash>, k: nat)
    requires Consistent(world) && a in world && k < |a|
    ensures Path(world, a[k]) == a[..k + 1]
  {
    assert Occurs(world, a[k], a, k);
  }

  // A path from the root: what the public API is given.
  ghost predicate RootPath(world: seq<seq<Hash>>, hashes: seq<Hash>) {
    forall i :: 0 <= i < |hashes| ==> Path(world, hashes[i]) == hashes[..i + 1]
  }

  // -------- the invariant of the flat cache --------

  ghost predicate ParentHolds(world: seq<seq<Hash>>, stamps: map<Hash, Stamp>, h: Hash)
    requires h in stamps
  {
    var path := Path(world, h);
    |path| > 1 ==> path[|path| - 2] in stamps && Outranks(stamps, path[|path| - 2], h)
  }

  // No orphans: a present block's parent is present and better protected.
  ghost predicate Rooted(world: seq<seq<Hash>>, stamps: map<Hash, Stamp>) {
    forall h :: h in stamps ==> ParentHolds(world, stamps, h)
  }

  // Blocks last touched by the same tick lie on one path.
  ghost predicate TicksArePaths(world: seq<seq<Hash>>, stamps: map<Hash, Stamp>) {
    forall g, h :: g in stamps && h in stamps && stamps[g].access == stamps[h].access ==>
      Path(world, g) <= Path(world, h) || Path(world, h) <= Path(world, g)
  }

  ghost predicate TreeLike(world: seq<seq<Hash>>, c: Cache) {
    Sound(c) && Rooted(world, c.stamps) && TicksArePaths(world, c.stamps)
  }

  // Presence is closed towards the root, so the present part of any chain is
  // exactly the prefix that `lookup` counts.
  lemma {:induction false} PresentPartIsPrefix(world: seq<seq<Hash>>, stamps: map<Hash, Stamp>, hashes: seq<Hash>, i: nat)
    requires Rooted(world, stamps) && RootPath(world, hashes) && i < |hashes|
    ensures hashes[i] in stamps <==> i < Leading(stamps.Keys, hashes)
    decreases i
  {
    hide Path;
    if i > 0 {
      PresentPartIsPrefix(world, stamps, hashes, i - 1);
      assert hashes[i] in stamps ==> ParentHolds(world, stamps, hashes[i]);
      assert Path(world, hashes[i])[i - 1] == hashes[i - 1];
    }
  }

  lemma RootPathIsDistinct(world: seq<seq<Hash>>, hashes: seq<Hash>, i: nat, j: nat)
    requires RootPath(world, hashes) && i < j < |hashes|
    ensures hashes[i] != hashes[j]
  {
    hide Path;
    assert |hashes[..i + 1]| != |hashes[..j + 1]|;
  }

  lemma {:induction false} TouchBlocksTickets(c: Cache, hashes: seq<Hash>, access: nat, i: nat)
    requires i < |hashes|
    requires forall j, k :: 0 <= j < k < |hashes| ==> hashes[j] != hashes[k]
    ensures hashes[i] in TouchBlocks(c, hashes, access).stamps
    ensures TouchBlocks(c, hashes, access).stamps[hashes[i]] == Stamp(access, c.ticket + i + 1)
    decreases |hashes|
  {
    var front := hashes[..|hashes| - 1];
    TouchBlocksFacts(c, front, access);
    if i < |front| {
      TouchBlocksTickets(c, front, access, i);
    }
  }

  // What a touch of a root path does to each stamp.
  ghost predicate Refreshed(stamps: map<Hash, Stamp>, hashes: seq<Hash>, access: nat, ticket: nat,
                            stamps': map<Hash, Stamp>)
  {
    && (forall i :: 0 <= i < |hashes| ==> hashes[i] in stamps' && stamps'[hashes[i]] == Stamp(access, ticket + i + 1))
    && (forall h :: h in stamps' <==> h in stamps || h in hashes)
    && (forall h :: h in stamps && h !in hashes ==> stamps'[h] == stamps[h])
  }

  lemma TouchRefreshes(world: seq<seq<Hash>>, c: Cache, hashes: seq<Hash>)
    requires RootPath(world, hashes)
    ensures Refreshed(c.stamps, hashes, c.clock + 1, c.ticket, Touch(c, hashes).stamps)
  {
    hide Path, Touch;
    var b := c.(clock := c.clock + 1);
    TouchStamps(c, hashes);
    TouchBlocksFacts(b, hashes, b.clock);
    forall i, j | 0 <= i < j < |hashes| ensures hashes[i] != hashes[j] {
      RootPathIsDistinct(world, hashes, i, j);
    }
    forall i | 0 <= i < |hashes|
      ensures hashes[i] in Touch(c, hashes).stamps
      ensures Touch(c, hashes).stamps[hashes[i]] == Stamp(c.clock + 1, c.ticket + i + 1)
    {
      TouchBlocksTickets(b, hashes, b.clock, i);
    }
  }

  lemma RefreshedIsRooted(world: seq<seq<Hash>>, stamps: map<Hash, Stamp>, hashes: seq<Hash>,
        access: nat, ticket: nat, stamps': map<Hash, Stamp>)
    requires Rooted(world, stamps) && RootPath(world, hashes)
    requires forall h :: h in stamps ==> stamps[h].access < access
    requires Refreshed(stamps, hashes, access, ticket, stamps')
    ensures Rooted(world, stamps')
  {
    hide Path;
    forall h | h in stamps' ensures ParentHolds(world, stamps', h) {
      var path := Path(world, h);
      if h in hashes {
        var i :| 0 <= i < |hashes| && hashes[i] == h;
        assert path == hashes[..i + 1];
        if i > 0 {
          assert path[|path| - 2] == hashes[i - 1];
        }
      } else {
        assert ParentHolds(world, stamps, h);
      }
    }
  }

  lemma RefreshedTicksArePaths(world: seq<seq<Hash>>, stamps: map<Hash, Stamp>, hashes: seq<Hash>,
        access: nat, ticket: nat, stamps': map<Hash, Stamp>)
    requires TicksArePaths(world, stamps) && RootPath(world, hashes)
    requires forall h :: h in stamps ==> stamps[h].access < access
    requires Refreshed(stamps, hashes, access, ticket, stamps')
    ensures TicksArePaths(world, stamps')
  {
    hide Path;
    forall g, h | g in stamps' && h in stamps' && stamps'[g].access == stamps'[h].access
      ensures Path(world, g) <= Path(world, h) || Path(world, h) <= Path(world, g)
    {
      if g in hashes && h in hashes {
        var i :| 0 <= i < |hashes| && hashes[i] == g;
        var j :| 0 <= j < |hashes| && hashes[j] == h;
        assert Path(world, g) == hashes[..i + 1] && Path(world, h) == hashes[..j + 1];
      }
    }
  }

  lemma TouchKeepsTreeLike(world: seq<seq<Hash>>, c: Cache, hashes: seq<Hash>)
    requires TreeLike(world, c) && RootPath(world, hashes)
    ensures TreeLike(world, Touch(c, hashes))
  {
    hide Touch, Rooted, TicksArePaths, RootPath, Refreshed;
    TouchIsSound(c, hashes);
    TouchRefreshes(world, c, hashes);
    RefreshedIsRooted(world, c.stamps, hashes, c.clock + 1, c.ticket, Touch(c, hashes).stamps);
    RefreshedTicksArePaths(world, c.stamps, hashes, c.clock + 1, c.ticket, Touch(c, hashes).stamps);
  }

  // Only a victim leaves, and no present block has a victim for parent.
  lemma VictimKeepsTreeLike(world: seq<seq<Hash>>, stamps: map<Hash, Stamp>, v: Hash)
    requires Rooted(world, stamps) && TicksArePaths(world, stamps) && IsVictim(stamps, v)
    ensures Rooted(world, stamps - {v}) && TicksArePaths(world, stamps - {v})
  {
    hide Path;
    var rest := stamps - {v};
    forall h | h in rest ensures ParentHolds(world, rest, h) {
      assert ParentHolds(world, stamps, h);
      assert Outranks(stamps, h, v);
    }
  }

  // -------- the simulation --------

  ghost predicate Placed(world: seq<seq<Hash>>, stamps: map<Hash, Stamp>, p: seq<Hash>) {
    |p| > 0 && p[|p| - 1] in stamps && Path(world, p[|p| - 1]) == p
  }

  ghost predicate LastAccessAgrees(stamps: map<Hash, Stamp>, root: Tree.Node, p: seq<Hash>)
    requires Tree.HasPath(root, p) && |p| > 0 && p[|p| - 1] in stamps
  {
    Tree.NodeAt(root, p).lastAccess == stamps[p[|p| - 1]].access
  }

  // Same node set, same last access at each node.
  ghost predicate SameNodes(world: seq<seq<Hash>>, stamps: map<Hash, Stamp>, root: Tree.Node) {
    && (forall p :: |p| > 0 ==> (Tree.HasPath(root, p) <==> Placed(world, stamps, p)))
    && (forall p :: Tree.HasPath(root, p) && Placed(world, stamps, p) ==> LastAccessAgrees(stamps, root, p))
  }

  ghost predicate Simulates(world: seq<seq<Hash>>, c: Cache, t: Tree.Tree) {
    t.clock == c.clock && t.numBlocks == |c.stamps| && SameNodes(world, c.stamps, t.root)
  }

  // `lookup` is the depth of the walk from the root.
  lemma LookupIsWalk(world: seq<seq<Hash>>, c: Cache, t: Tree.Tree, hashes: seq<Hash>)
    requires TreeLike(world, c) && RootPath(world, hashes) && Simulates(world, c, t)
    ensures Lookup(c, hashes) == Tree.Walk(t.root, hashes)
  {
    hide Path, Sound, TicksArePaths, Rooted, LastAccessAgrees, Leading, Tree.HasPath, Tree.Walk;
    var n, w := Lookup(c, hashes), Tree.Walk(t.root, hashes);
    if n > 0 {
      assert Placed(world, c.stamps, hashes[..n]);
      Tree.WalkIsDeepest(t.root, hashes, n);
    }
    if w > 0 {
      Tree.WalkIsDeepest(t.root, hashes, w);
      assert Placed(world, c.stamps, hashes[..w]);
      PresentPartIsPrefix(world, c.stamps, hashes, w - 1);
    }
  }

  // Node by node, the tree after an insert is the flat cache after a touch.
  lemma InsertPlaces(world: seq<seq<Hash>>, c: Cache, t: Tree.Tree, hashes: seq<Hash>, stamps': map<Hash, Stamp>, p: seq<Hash>)
    requires RootPath(world, hashes) && Simulates(world, c, t) && |p| > 0
    requires Refreshed(c.stamps, hashes, c.clock + 1, c.ticket, stamps')
    ensures var root' := Tree.InsertAt(t.root, hashes, t.clock + 1);
            && (Tree.HasPath(root', p) <==> Placed(world, stamps', p))
            && (Tree.HasPath(root', p) && Placed(world, stamps', p) ==> LastAccessAgrees(stamps', root', p))
  {
    hide Path, Tree.InsertAt;
    Tree.InsertAddsPrefixes(t.root, hashes, t.clock + 1, p);
    var h := p[|p| - 1];
    if p <= hashes {
      assert hashes[|p| - 1] == h;
      assert hashes[..|p|] == p;
    } else if h in hashes {
      var i :| 0 <= i < |hashes| && hashes[i] == h;
      assert Path(world, h) == hashes[..i + 1] <= hashes;
      assert !Placed(world, c.stamps, p);
    }
  }

  // Counting the created nodes keeps the node count exact.
  lemma InsertCounts(world: seq<seq<Hash>>, c: Cache, t: Tree.Tree, hashes: seq<Hash>)
    requires TreeLike(world, c) && RootPath(world, hashes) && Simulates(world, c, t)
    ensures |Touch(c, hashes).stamps| == t.numBlocks + |hashes| - Tree.Walk(t.root, hashes)
  {
    hide Path, Touch;
    TouchStamps(c, hashes);
    LookupIsWalk(world, c, t, hashes);
    forall i, j | 0 <= i < j < |hashes| ensures hashes[i] != hashes[j] {
      RootPathIsDistinct(world, hashes, i, j);
    }
    forall i | 0 <= i < |hashes| ensures hashes[i] in c.stamps.Keys <==> i < Lookup(c, hashes) {
      PresentPartIsPrefix(world, c.stamps, hashes, i);
    }
    CountNew(c.stamps.Keys, hashes, Lookup(c, hashes));
  }

  lemma InsertSimulates(world: seq<seq<Hash>>, c: Cache, t: Tree.Tree, hashes: seq<Hash>)
    requires TreeLike(world, c) && RootPath(world, hashes) && Simulates(world, c, t)
    ensures Simulates(world, Touch(c, hashes), Tree.Insert(t, hashes))
  {
    hide Path, Touch, TreeLike, RootPath, Refreshed, SameNodes;
    TouchStamps(c, hashes);
    TouchRefreshes(world, c, hashes);
    InsertCounts(world, c, t, hashes);
    InsertSameNodes(world, c, t, hashes, Touch(c, hashes).stamps);
  }

  lemma InsertSameNodes(world: seq<seq<Hash>>, c: Cache, t: Tree.Tree, hashes: seq<Hash>, stamps': map<Hash, Stamp>)
    requires RootPath(world, hashes) && Simulates(world, c, t)
    requires Refreshed(c.stamps, hashes, c.clock + 1, c.ticket, stamps')
    ensures SameNodes(world, stamps', Tree.InsertAt(t.root, hashes, t.clock + 1))
  {
    hide Path, RootPath, Refreshed, Simulates, Tree.InsertAt;
    forall p: seq<Hash> | |p| > 0 {
      InsertPlaces(world, c, t, hashes, stamps', p);
    }
  }

  lemma MatchIsInsertOfHits(world: seq<seq<Hash>>, c: Cache, t: Tree.Tree, hashes: seq<Hash>)
    requires TreeLike(world, c) && RootPath(world, hashes) && Simulates(world, c, t)
    ensures var hits := hashes[..Lookup(c, hashes)];
            RootPath(world, hits) && Tree.Match(t, hashes) == Tree.Insert(t, hits)
  {
    hide Path, TreeLike, Simulates;
    var n := Lookup(c, hashes);
    var hits := hashes[..n];
    forall i | 0 <= i < |hits| ensures Path(world, hits[i]) == hits[..i + 1] {
      assert hits[..i + 1] == hashes[..i + 1];
    }
    LookupIsWalk(world, c, t, hashes);
    LookupIsWalk(world, c, t, hits);
    LeadingIs(c.stamps.Keys, hits, n);
    Tree.RefreshIsInsert(t.root, hashes, t.clock + 1);
  }

  lemma MatchSimulates(world: seq<seq<Hash>>, c: Cache, t: Tree.Tree, hashes: seq<Hash>)
    requires TreeLike(world, c) && RootPath(world, hashes) && Simulates(world, c, t)
    ensures TreeLike(world, MatchPrefix(c, hashes))
    ensures Simulates(world, MatchPrefix(c, hashes), Tree.Match(t, hashes))
  {
    hide Path, TreeLike, Simulates, RootPath, Touch;
    MatchIsInsertOfHits(world, c, t, hashes);
    TouchKeepsTreeLike(world, c, hashes[..Lookup(c, hashes)]);
    InsertSimulates(world, c, t, hashes[..Lookup(c, hashes)]);
  }

  lemma VictimHasNoChild(world: seq<seq<Hash>>, stamps: map<Hash, Stamp>, v: Hash, k: Hash)
    requires Rooted(world, stamps) && IsVictim(stamps, v) && k in stamps
    ensures |Path(world, k)| > 1 ==> Path(world, k)[|Path(world, k)| - 2] != v
  {
    hide Path;
    assert ParentHolds(world, stamps, k);
    assert k != v ==> Outranks(stamps, k, v);
  }

  lemma LeafHasNoExtension(root: Tree.Node, p: seq<Hash>, q: seq<Hash>)
    requires Tree.IsLeaf(root, p) && Tree.HasPath(root, q) && p <= q
    ensures p == q
  {
    if |p| < |q| {
      assert q[..|p| + 1] == p + [q[|p|]];
      Tree.PathPrefix(root, q[..|p| + 1], q);
      Tree.PathSnoc(root, p, q[|p|]);
    }
  }

  // The next victim of the flat cache is a leaf of the tree, with the least
  // last access among leaves.
  lemma VictimIsMinLeaf(world: seq<seq<Hash>>, c: Cache, t: Tree.Tree, v: Hash)
    requires TreeLike(world, c) && Simulates(world, c, t) && IsVictim(c.stamps, v)
    ensures Tree.IsMinLeaf(t.root, Path(world, v))
  {
    VictimIsLeaf(world, c.stamps, t.root, v);
    hide Path, Rooted, TicksArePaths, Sound;
    var path := Path(world, v);
    forall p | Tree.IsLeaf(t.root, p)
      ensures Tree.NodeAt(t.root, path).lastAccess <= Tree.NodeAt(t.root, p).lastAccess
    {
      assert Placed(world, c.stamps, p) && Placed(world, c.stamps, path);
      assert LastAccessAgrees(c.stamps, t.root, p) && LastAccessAgrees(c.stamps, t.root, path);
      assert p[|p| - 1] != v ==> Outranks(c.stamps, p[|p| - 1], v);
    }
  }

  lemma VictimIsLeaf(world: seq<seq<Hash>>, stamps: map<Hash, Stamp>, root: Tree.Node, v: Hash)
    requires Rooted(world, stamps) && SameNodes(world, stamps, root) && IsVictim(stamps, v)
    ensures Tree.IsLeaf(root, Path(world, v))
  {
    var path := Path(world, v);
    assert path[|path| - 1] == v;
    assert Placed(world, stamps, path);
    hide Path, Rooted, IsVictim;
    forall k ensures k !in Tree.NodeAt(root, path).children {
      Tree.PathSnoc(root, path, k);
      if k in stamps {
        VictimHasNoChild(world, stamps, v, k);
      }
      assert (path + [k])[|path| - 1] == v;
      assert !Placed(world, stamps, path + [k]);
    }
    assert Tree.NodeAt(root, path).children == map[];
  }

  // It is the only such leaf, so however the tree breaks ties it evicts the
  // same block: blocks of equal age lie on one path.
  lemma MinLeafIsUnique(world: seq<seq<Hash>>, c: Cache, t: Tree.Tree, p: seq<Hash>, q: seq<Hash>)
    requires TreeLike(world, c) && Simulates(world, c, t)
    requires Tree.IsMinLeaf(t.root, p) && Tree.IsMinLeaf(t.root, q)
    ensures p == q
  {
    hide Path, Sound, Rooted;
    assert Placed(world, c.stamps, p) && Placed(world, c.stamps, q);
    assert LastAccessAgrees(c.stamps, t.root, p) && LastAccessAgrees(c.stamps, t.root, q);
    if p <= q {
      LeafHasNoExtension(t.root, p, q);
    } else {
      LeafHasNoExtension(t.root, q, p);
    }
  }

  // Removing the leaf from the tree and the victim from the map.
  lemma VictimSameNodes(world: seq<seq<Hash>>, stamps: map<Hash, Stamp>, root: Tree.Node, v: Hash)
    requires SameNodes(world, stamps, root) && Tree.IsLeaf(root, Path(world, v))
    ensures SameNodes(world, stamps - {v}, Tree.RemoveAt(root, Path(world, v)))
  {
    hide Path;
    var path := Path(world, v);
    forall p: seq<Hash> | |p| > 0
      ensures Tree.HasPath(Tree.RemoveAt(root, path), p) <==> Placed(world, stamps - {v}, p)
      ensures Tree.HasPath(Tree.RemoveAt(root, path), p) && Placed(world, stamps - {v}, p) ==>
                Placed(world, stamps, p) && LastAccessAgrees(stamps - {v}, Tree.RemoveAt(root, path), p)
    {
      Tree.RemoveDropsSubtree(root, path, p);
      if Tree.HasPath(root, p) && path <= p {
        LeafHasNoExtension(root, path, p);
      }
    }
  }

  lemma VictimSimulates(world: seq<seq<Hash>>, c: Cache, t: Tree.Tree, d: Cache, v: Hash)
    requires TreeLike(world, c) && Simulates(world, c, t) && IsVictim(c.stamps, v)
    requires Sound(d) && d.stamps == c.stamps - {v} && d.clock == c.clock
    ensures var p := Path(world, v);
            && t.numBlocks > 0 && Tree.IsMinLeaf(t.root, p)
            && TreeLike(world, d)
            && Simulates(world, d, Tree.Remove(t, p))
  {
    hide Path, Rooted, TicksArePaths, SameNodes, Sound;
    assert v in c.stamps.Keys;
    VictimIsMinLeaf(world, c, t, v);
    VictimKeepsTreeLike(world, c.stamps, v);
    VictimSameNodes(world, c.stamps, t.root, v);
  }

  lemma {:induction false} EvictSimulates(world: seq<seq<Hash>>, c: Cache, t: Tree.Tree, budget: nat)
    requires TreeLike(world, c) && Simulates(world, c, t)
    ensures TreeLike(world, EvictTo(c, budget))
    ensures Simulates(world, EvictTo(c, budget), Tree.EvictTo(t, budget))
    decreases |c.heap|
  {
    hide Path, Rooted, TicksArePaths, SameNodes, Sound, IsVictim, PopOne, Tree.Remove;
    if |c.stamps| > budget {
      PopEvicts(c);
      PopIsSound(c);
      PopKeepsClock(c);
      var d := PopOne(c);
      if d.stamps == c.stamps {
        EvictSimulates(world, d, t, budget);
      } else {
        var v :| IsVictim(c.stamps, v) && d.stamps == c.stamps - {v};
        VictimSimulates(world, c, t, d, v);
        var p :| Tree.IsMinLeaf(t.root, p) && Tree.EvictTo(t, budget) == Tree.EvictTo(Tree.Remove(t, p), budget);
        MinLeafIsUnique(world, c, t, p, Path(world, v));
        EvictSimulates(world, d, Tree.Remove(t, p), budget);
      }
    }
  }

  lemma PopKeepsClock(c: Cache)
    requires c.heap != multiset{}
    ensures PopOne(c).clock == c.clock
  {
  }

  // -------- runs --------

  ghost function RunTree(ops: seq<Op>): (Tree.Tree, seq<nat>) {
    if |ops| == 0 then (Tree.EMPTY_TREE, [])
    else
      var (t, told) := RunTree(ops[..|ops| - 1]);
      match ops[|ops| - 1]
      case Insert(chain) => (Tree.Insert(t, chain), told)
      case Match(chain) => (Tree.Match(t, chain), told + [Tree.Walk(t.root, chain)])
      case Peek(chain) => (t, told + [Tree.Walk(t.root, chain)])
      case Evict(budget) => (Tree.EvictTo(t, budget), told)
  }

  // A run on the chains of `world`.
  predicate Over(world: seq<seq<Hash>>, ops: seq<Op>) {
    forall op :: op in ops ==> Chain(op) in world || Chain(op) == []
  }

  lemma EmptySimulates(world: seq<seq<Hash>>)
    ensures TreeLike(world, EMPTY) && Simulates(world, EMPTY, Tree.EMPTY_TREE)
  {
  }

  lemma ChainIsRootPath(world: seq<seq<Hash>>, chain: seq<Hash>)
    requires Consistent(world) && (chain in world || chain == [])
    ensures RootPath(world, chain)
  {
    forall i | 0 <= i < |chain| ensures Path(world, chain[i]) == chain[..i + 1] {
      PathInChain(world, chain, i);
    }
  }

  // Over every run on parent-consistent chains the flat cache and the radix
  // tree hold the same nodes with the same last accesses and answer alike,
  // and the flat cache has no orphans.
  lemma {:induction false} FlatCacheIsRadixTree(world: seq<seq<Hash>>, ops: seq<Op>)
    requires Consistent(world)
    requires Over(world, ops)
    ensures TreeLike(world, RunCache(ops).0)
    ensures Simulates(world, RunCache(ops).0, RunTree(ops).0)
    ensures RunCache(ops).1 == RunTree(ops).1
    decreases |ops|
  {
    hide Consistent, TreeLike, Simulates, RootPath, Touch, MatchPrefix, Lookup, EvictTo;
    hide Tree.Insert, Tree.Match, Tree.EvictTo, Tree.Walk;
    if |ops| == 0 {
      EmptySimulates(world);
    } else {
      var front, op := ops[..|ops| - 1], ops[|ops| - 1];
      FlatCacheIsRadixTree(world, front);
      var c, t := RunCache(front).0, RunTree(front).0;
      assert op in ops;
      ChainIsRootPath(world, Chain(op));
      match op
      case Insert(chain) =>
        TouchKeepsTreeLike(world, c, chain);
        InsertSimulates(world, c, t, chain);
      case Match(chain) =>
        MatchSimulates(world, c, t, chain);
        LookupIsWalk(world, c, t, chain);
      case Peek(chain) =>
        LookupIsWalk(world, c, t, chain);
      case Evict(budget) =>
        EvictSimulates(world, c, t, budget);
    }
  }
}

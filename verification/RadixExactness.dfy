// Parent-consistency is exactly what the radix-tree equivalence needs, and
// it is what the block hashes give as long as none of them collide.
module RadixExactness {
  import opened LruCache
  import opened RadixEquivalence
  import Blocks
  import Tree = RadixTree

  lemma {:induction false} SetOfAtMost(hashes: seq<Hash>)
    ensures |SetOf(hashes)| <= |hashes|
    decreases |hashes|
  {
    if |hashes| > 0 {
      var front, last := hashes[..|hashes| - 1], hashes[|hashes| - 1];
      SetOfAtMost(front);
      assert hashes == front + [last];
      assert SetOf(hashes) == SetOf(front) + {last};
    } else {
      assert SetOf(hashes) == {};
    }
  }

  lemma RepeatShrinksSet(hashes: seq<Hash>, i: nat, j: nat)
    requires i < j < |hashes| && hashes[i] == hashes[j]
    ensures |SetOf(hashes)| < |hashes|
  {
    var rest := hashes[..j] + hashes[j + 1..];
    SetOfAtMost(rest);
    forall h ensures h in hashes <==> h in rest {
      if h in hashes {
        var k :| 0 <= k < |hashes| && hashes[k] == h;
        assert h == rest[if k == j then i else if k < j then k else k - 1];
      }
    }
    assert SetOf(hashes) == SetOf(rest);
  }

  lemma TwoInserts(a: seq<Hash>, b: seq<Hash>)
    ensures RunCache([Insert(a), Insert(b)]).0.stamps.Keys == SetOf(a) + SetOf(b)
    ensures RunTree([Insert(a), Insert(b)]).0 == Tree.Insert(Tree.Insert(Tree.EMPTY_TREE, a), b)
  {
    hide Touch, Tree.Insert;
    var ops := [Insert(a), Insert(b)];
    assert ops[..1] == [Insert(a)] && [Insert(a)][..0] == [];
    assert RunCache(ops[..1]).0 == Touch(EMPTY, a);
    assert RunTree(ops[..1]).0 == Tree.Insert(Tree.EMPTY_TREE, a);
    TouchStamps(EMPTY, a);
    TouchStamps(Touch(EMPTY, a), b);
  }

  lemma WalkIsShared(a: seq<Hash>, b: seq<Hash>)
    ensures var t := Tree.Insert(Tree.EMPTY_TREE, a);
            && t.numBlocks == |a|
            && b[..Tree.Walk(t.root, b)] <= a
  {
    var t := Tree.Insert(Tree.EMPTY_TREE, a);
    var w := Tree.Walk(t.root, b);
    Tree.WalkIsDeepest(t.root, b, w);
    Tree.InsertAddsPrefixes(Tree.EMPTY_TREE.root, a, 1, b[..w]);
  }

  lemma SharedUnion(a: seq<Hash>, b: seq<Hash>, w: nat)
    requires w <= |b| && b[..w] <= a
    ensures SetOf(a) + SetOf(b) == SetOf(a + b[w..])
  {
    var all := a + b[w..];
    forall h ensures h in SetOf(a) + SetOf(b) <==> h in SetOf(all) {
      if h in b {
        var i :| 0 <= i < |b| && b[i] == h;
        assert i < w ==> a[i] == h;
        assert i >= w ==> all[|a| + i - w] == h;
      }
    }
  }

  // One hash on two different paths: the tree counts it twice, the map once.
  lemma InconsistencyShows(a: seq<Hash>, k: nat, b: seq<Hash>, l: nat)
    requires k < |a| && l < |b| && a[k] == b[l] && a[..k + 1] != b[..l + 1]
    ensures |RunCache([Insert(a), Insert(b)]).0.stamps| < RunTree([Insert(a), Insert(b)]).0.numBlocks
  {
    hide RunCache, RunTree, Touch, Tree.InsertAt, Tree.Walk, SetOf;
    TwoInserts(a, b);
    WalkIsShared(a, b);
    var w := Tree.Walk(Tree.Insert(Tree.EMPTY_TREE, a).root, b);
    var all := a + b[w..];
    SharedUnion(a, b, w);
    if l >= w {
      assert all[|a| + l - w] == b[l];
      RepeatShrinksSet(all, k, |a| + l - w);
    } else {
      assert a[..l + 1] == b[..w][..l + 1] == b[..l + 1];
      assert a[l] == a[..l + 1][l] == b[l];
      RepeatShrinksSet(all, if k < l then k else l, if k < l then l else k);
    }
  }

  // The flat cache holds as many blocks as the radix tree over every run on
  // the chains of `world` if and only if those chains are parent-consistent.
  lemma EquivalentExactlyWhenConsistent(world: seq<seq<Hash>>)
    ensures Consistent(world) <==>
            forall ops :: Over(world, ops) ==> |RunCache(ops).0.stamps| == RunTree(ops).0.numBlocks
  {
    if Consistent(world) {
      forall ops | Over(world, ops) ensures |RunCache(ops).0.stamps| == RunTree(ops).0.numBlocks {
        FlatCacheIsRadixTree(world, ops);
      }
    } else {
      var h, a, k, b, l :| Occurs(world, h, a, k) && Occurs(world, h, b, l) && a[..k + 1] != b[..l + 1];
      InconsistencyShows(a, k, b, l);
      assert Over(world, [Insert(a), Insert(b)]);
    }
  }

  // -------- where the chains come from --------

  // No two different prefixes of full blocks of these prompts share a hash.
  ghost predicate CollisionFree(prompts: seq<seq<Blocks.Token>>) {
    forall p, q, m: nat, n: nat ::
      m > 0 && n > 0 && p in prompts && q in prompts
      && Blocks.BLOCK_SIZE * m <= |p| && Blocks.BLOCK_SIZE * n <= |q|
      && Blocks.BlockHash(p[..Blocks.BLOCK_SIZE * m]) == Blocks.BlockHash(q[..Blocks.BLOCK_SIZE * n])
      ==> p[..Blocks.BLOCK_SIZE * m] == q[..Blocks.BLOCK_SIZE * n]
  }

  function Chains(prompts: seq<seq<Blocks.Token>>): (chains: seq<seq<Hash>>)
    ensures |chains| == |prompts|
    ensures forall i :: 0 <= i < |prompts| ==> chains[i] == Blocks.BlockChain(prompts[i])
  {
    seq(|prompts|, i requires 0 <= i < |prompts| => Blocks.BlockChain(prompts[i]))
  }

  lemma EqualPrefixesEqualChains(p: seq<Blocks.Token>, q: seq<Blocks.Token>, m: nat)
    requires m <= |Blocks.BlockChain(p)| && m <= |Blocks.BlockChain(q)|
    requires p[..Blocks.BLOCK_SIZE * m] == q[..Blocks.BLOCK_SIZE * m]
    ensures Blocks.BlockChain(p)[..m] == Blocks.BlockChain(q)[..m]
  {
    forall i | 0 <= i < m ensures Blocks.BlockChain(p)[i] == Blocks.BlockChain(q)[i] {
      var n := Blocks.BLOCK_SIZE * (i + 1);
      assert p[..n] == p[..Blocks.BLOCK_SIZE * m][..n] == q[..n];
    }
  }

  lemma EqualHashesEqualChains(prompts: seq<seq<Blocks.Token>>, p: seq<Blocks.Token>, k: nat, q: seq<Blocks.Token>, l: nat)
    requires CollisionFree(prompts) && p in prompts && q in prompts
    requires k < |Blocks.BlockChain(p)| && l < |Blocks.BlockChain(q)|
    requires Blocks.BlockChain(p)[k] == Blocks.BlockChain(q)[l]
    ensures Blocks.BlockChain(p)[..k + 1] == Blocks.BlockChain(q)[..l + 1]
  {
    hide Blocks.BlockHash, Blocks.BlockChain;
    var m, n := k + 1, l + 1;
    assert Blocks.BlockHash(p[..Blocks.BLOCK_SIZE * m]) == Blocks.BlockHash(q[..Blocks.BLOCK_SIZE * n]);
    assert p[..Blocks.BLOCK_SIZE * m] == q[..Blocks.BLOCK_SIZE * n];
    assert m == n;
    hide CollisionFree;
    EqualPrefixesEqualChains(p, q, m);
  }

  // Hash chains of prompts without collisions are parent-consistent, so for
  // them the flat cache is the radix tree over token blocks.
  lemma CollisionFreeIsConsistent(prompts: seq<seq<Blocks.Token>>)
    requires CollisionFree(prompts)
    ensures Consistent(Chains(prompts))
  {
    hide CollisionFree, Blocks.BlockHash, Blocks.BlockChain;
    var world := Chains(prompts);
    forall h, a, k, b, l | Occurs(world, h, a, k) && Occurs(world, h, b, l)
      ensures a[..k + 1] == b[..l + 1]
    {
      var i :| 0 <= i < |world| && world[i] == a;
      var j :| 0 <= j < |world| && world[j] == b;
      EqualHashesEqualChains(prompts, prompts[i], k, prompts[j], l);
    }
  }

  // From prompts to answers: on the hash chains of prompts that do not
  // collide, the flat cache answers as the radix tree over their blocks.
  lemma PromptsFormARadixTree(prompts: seq<seq<Blocks.Token>>, ops: seq<Op>)
    requires CollisionFree(prompts) && Over(Chains(prompts), ops)
    ensures Simulates(Chains(prompts), RunCache(ops).0, RunTree(ops).0)
    ensures RunCache(ops).1 == RunTree(ops).1
  {
    CollisionFreeIsConsistent(prompts);
    FlatCacheIsRadixTree(Chains(prompts), ops);
  }
}

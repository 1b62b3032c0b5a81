// The radix tree that the flat caches stand for: nodes keyed by block hash,
// leaf-first LRU eviction (the design's `RadixTree`). The flat map with its
// lazy heap is proved to behave exactly like it.
module RadixTree {
  import opened LruCache

  datatype Node = Node(children: map<Hash, Node>, lastAccess: nat)

  datatype Tree = Tree(root: Node, clock: nat, numBlocks: nat)

  const EMPTY_TREE: Tree := Tree(Node(map[], 0), 0, 0)

  predicate HasPath(n: Node, path: seq<Hash>) {
    |path| == 0 || (path[0] in n.children && HasPath(n.children[path[0]], path[1..]))
  }

  function NodeAt(n: Node, path: seq<Hash>): Node
    requires HasPath(n, path)
  {
    if |path| == 0 then n else NodeAt(n.children[path[0]], path[1..])
  }

  // Blocks matched walking down from `n`.
  function Walk(n: Node, hashes: seq<Hash>): (depth: nat)
    ensures depth <= |hashes|
  {
    if |hashes| > 0 && hashes[0] in n.children then 1 + Walk(n.children[hashes[0]], hashes[1..]) else 0
  }

  // Refreshes the existing part of the path below `n`.
  function RefreshAt(n: Node, hashes: seq<Hash>, clock: nat): Node
    decreases |hashes|
  {
    if |hashes| > 0 && hashes[0] in n.children then
      var child := n.children[hashes[0]].(lastAccess := clock);
      n.(children := n.children[hashes[0] := RefreshAt(child, hashes[1..], clock)])
    else n
  }

  // Creates what is missing of the path below `n`, and refreshes all of it.
  function InsertAt(n: Node, hashes: seq<Hash>, clock: nat): Node
    decreases |hashes|
  {
    if |hashes| == 0 then n
    else
      var child := if hashes[0] in n.children then n.children[hashes[0]] else Node(map[], 0);
      n.(children := n.children[hashes[0] := InsertAt(child.(lastAccess := clock), hashes[1..], clock)])
  }

  function RemoveAt(n: Node, path: seq<Hash>): Node
    requires |path| > 0 && HasPath(n, path)
  {
    if |path| == 1 then n.(children := n.children - {path[0]})
    else n.(children := n.children[path[0] := RemoveAt(n.children[path[0]], path[1..])])
  }

  function Match(t: Tree, hashes: seq<Hash>): Tree {
    t.(clock := t.clock + 1, root := RefreshAt(t.root, hashes, t.clock + 1))
  }

  function Insert(t: Tree, hashes: seq<Hash>): Tree {
    Tree(InsertAt(t.root, hashes, t.clock + 1),
         t.clock + 1,
         t.numBlocks + |hashes| - Walk(t.root, hashes))
  }

  predicate IsLeaf(n: Node, path: seq<Hash>) {
    |path| > 0 && HasPath(n, path) && NodeAt(n, path).children == map[]
  }

  // A leaf with the least last access among leaves.
  ghost predicate IsMinLeaf(n: Node, path: seq<Hash>) {
    && IsLeaf(n, path)
    && forall q :: IsLeaf(n, q) ==> NodeAt(n, path).lastAccess <= NodeAt(n, q).lastAccess
  }

  function Remove(t: Tree, path: seq<Hash>): Tree
    requires |path| > 0 && HasPath(t.root, path) && t.numBlocks > 0
  {
    t.(root := RemoveAt(t.root, path), numBlocks := t.numBlocks - 1)
  }

  // Which of several least recently used leaves goes is left open.
  ghost function EvictTo(t: Tree, budget: nat): Tree
    decreases t.numBlocks
  {
    if t.numBlocks > budget && exists p :: IsMinLeaf(t.root, p) then
      var p :| IsMinLeaf(t.root, p);
      EvictTo(Remove(t, p), budget)
    else t
  }

  // -------- tree facts --------

  lemma {:induction false} WalkIsDeepest(n: Node, hashes: seq<Hash>, k: nat)
    requires k <= |hashes|
    ensures HasPath(n, hashes[..k]) <==> k <= Walk(n, hashes)
    decreases k
  {
    if k > 0 {
      assert hashes[..k][0] == hashes[0] && hashes[..k][1..] == hashes[1..][..k - 1];
      if hashes[0] in n.children {
        WalkIsDeepest(n.children[hashes[0]], hashes[1..], k - 1);
      }
    }
  }

  lemma {:induction false} RefreshIsInsert(n: Node, hashes: seq<Hash>, clock: nat)
    ensures RefreshAt(n, hashes, clock) == InsertAt(n, hashes[..Walk(n, hashes)], clock)
    decreases |hashes|
  {
    if |hashes| > 0 && hashes[0] in n.children {
      var child := n.children[hashes[0]].(lastAccess := clock);
      var k := Walk(n, hashes);
      assert Walk(child, hashes[1..]) == Walk(n.children[hashes[0]], hashes[1..]) == k - 1;
      assert hashes[..k][0] == hashes[0] && hashes[..k][1..] == hashes[1..][..k - 1];
      RefreshIsInsert(child, hashes[1..], clock);
    }
  }

  lemma {:induction false} InsertAddsPrefixes(n: Node, hashes: seq<Hash>, clock: nat, p: seq<Hash>)
    ensures HasPath(InsertAt(n, hashes, clock), p) <==> HasPath(n, p) || p <= hashes
    ensures HasPath(InsertAt(n, hashes, clock), p) && |p| > 0 ==>
              NodeAt(InsertAt(n, hashes, clock), p).lastAccess ==
              if p <= hashes then clock else NodeAt(n, p).lastAccess
    decreases |hashes|
  {
    if |p| > 0 && |hashes| > 0 && p[0] == hashes[0] {
      var child := (if hashes[0] in n.children then n.children[hashes[0]] else Node(map[], 0)).(lastAccess := clock);
      InsertAddsPrefixes(child, hashes[1..], clock, p[1..]);
      assert p <= hashes <==> p[1..] <= hashes[1..];
      if hashes[0] !in n.children && |p| > 1 {
        assert !HasPath(child, p[1..]);
      }
    }
  }

  lemma {:induction false} RemoveDropsSubtree(n: Node, gone: seq<Hash>, p: seq<Hash>)
    requires |gone| > 0 && HasPath(n, gone)
    ensures HasPath(RemoveAt(n, gone), p) <==> HasPath(n, p) && !(gone <= p)
    ensures HasPath(RemoveAt(n, gone), p) ==> NodeAt(RemoveAt(n, gone), p).lastAccess == NodeAt(n, p).lastAccess
    decreases |gone|
  {
    if |p| > 0 && p[0] == gone[0] && |gone| > 1 {
      RemoveDropsSubtree(n.children[gone[0]], gone[1..], p[1..]);
      assert gone <= p <==> gone[1..] <= p[1..];
    }
  }

  lemma {:induction false} PathSnoc(n: Node, p: seq<Hash>, h: Hash)
    requires HasPath(n, p)
    ensures HasPath(n, p + [h]) <==> h in NodeAt(n, p).children
    decreases |p|
  {
    if |p| == 0 {
      assert (p + [h])[1..] == [];
    } else {
      assert (p + [h])[1..] == p[1..] + [h];
      PathSnoc(n.children[p[0]], p[1..], h);
    }
  }

  lemma {:induction false} PathPrefix(n: Node, p: seq<Hash>, q: seq<Hash>)
    requires HasPath(n, q) && p <= q
    ensures HasPath(n, p)
    decreases |p|
  {
    if |p| > 0 {
      PathPrefix(n.children[p[0]], p[1..], q[1..]);
    }
  }
}

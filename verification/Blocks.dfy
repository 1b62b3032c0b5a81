// crates/protocol/src/blocks.rs: the chained 64-bit hash over 16-token blocks.
//
// The running hash never restarts at a block boundary, so hash i of a prompt
// is the fold of its first 16 * (i + 1) tokens. `Running` states that fold;
// the nested loops of `BlockHashes` are proved to compute it.
module Blocks {
  type Token = bv32
  type Word = bv64

  // A block hash as the caches use it: a u64 that is only compared.
  newtype Hash = h: int | 0 <= h < 0x1_0000_0000_0000_0000

  const BLOCK_SIZE: nat := 16
  const FNV_OFFSET: Word := 0xcbf2_9ce4_8422_2325

  // Wrapping multiplication by the FNV prime, and by its inverse modulo 2^64.
  function Scale(h: Word): Word {
    h * 0x100_0000_01b3
  }

  function Unscale(h: Word): Word {
    h * 0xce96_5057_aff6_957b
  }

  // One FNV-1a step on a whole 32-bit token.
  function Mix(h: Word, t: Token): Word {
    Scale(h ^ (t as Word))
  }

  function Unmix(h: Word, t: Token): Word {
    Unscale(h) ^ (t as Word)
  }

  // The running hash after all of `tokens`, starting from `h`.
  function Fold(h: Word, tokens: seq<Token>): Word {
    if |tokens| == 0 then h else Mix(Fold(h, tokens[..|tokens| - 1]), tokens[|tokens| - 1])
  }

  function Running(tokens: seq<Token>): Word {
    Fold(FNV_OFFSET, tokens)
  }

  function ToHash(w: Word): Hash {
    w as Hash
  }

  function FromHash(h: Hash): Word {
    h as Word
  }

  // The hash of the block that ends `tokens`.
  function BlockHash(tokens: seq<Token>): Hash {
    ToHash(Running(tokens))
  }

  // The specification of `BlockHashes`.
  function BlockChain(tokens: seq<Token>): (hashes: seq<Hash>)
    ensures |hashes| == |tokens| / 16
    ensures forall i :: 0 <= i < |hashes| ==> hashes[i] == BlockHash(tokens[..16 * (i + 1)])
  {
    seq(|tokens| / BLOCK_SIZE,
        i requires 0 <= i < |tokens| / BLOCK_SIZE => BlockHash(tokens[..BLOCK_SIZE * (i + 1)]))
  }

  method BlockHashes(tokens: seq<Token>) returns (hashes: seq<Hash>)
    ensures hashes == BlockChain(tokens)
    ensures |hashes| == |tokens| / 16
  {
    hashes := [];
    var prev := FNV_OFFSET;
    var start := 0;
    while start + BLOCK_SIZE <= |tokens|
      invariant 0 <= start <= |tokens|
      invariant start == BLOCK_SIZE * |hashes|
      invariant prev == Running(tokens[..start])
      invariant forall i :: 0 <= i < |hashes| ==> hashes[i] == BlockHash(tokens[..BLOCK_SIZE * (i + 1)])
    {
      var h := prev;
      for j := 0 to BLOCK_SIZE
        invariant h == Running(tokens[..start + j])
      {
        assert tokens[..start + j + 1][..start + j] == tokens[..start + j];
        h := Mix(h, tokens[start + j]);
      }
      hashes := hashes + [ToHash(h)];
      prev := h;
      start := start + BLOCK_SIZE;
    }
  }

  lemma UnscaleProduct(x: Word)
    ensures Unscale(x * 0x100_0000_01b3) == x
  {
  }

  lemma ScaleQuotient(x: Word)
    ensures Scale(x * 0xce96_5057_aff6_957b) == x
  {
  }

  lemma UnscaleScale(x: Word)
    ensures Unscale(Scale(x)) == x
  {
    hide Unscale;
    UnscaleProduct(x);
  }

  lemma ScaleUnscale(x: Word)
    ensures Scale(Unscale(x)) == x
  {
    hide Scale;
    ScaleQuotient(x);
  }

  // Every step is a bijection on the running hash, whatever the token.
  lemma MixIsBijective(h: Word, t: Token)
    ensures Unmix(Mix(h, t), t) == h
    ensures Mix(Unmix(h, t), t) == h
  {
    hide Scale, Unscale;
    UnscaleScale(h ^ (t as Word));
    ScaleUnscale(h);
  }

  lemma MixSeparatesTokens(h: Word, t: Token, u: Token)
    requires t != u
    ensures Mix(h, t) != Mix(h, u)
  {
    hide Scale, Unscale;
    UnscaleScale(h ^ (t as Word));
    UnscaleScale(h ^ (u as Word));
  }

  lemma FromHashCast(w: Word)
    ensures FromHash(w as Hash) == w
  {
  }

  lemma FromToHash(w: Word)
    ensures FromHash(ToHash(w)) == w
  {
    hide FromHash;
    FromHashCast(w);
  }

  lemma ToHashIsInjective(v: Word, w: Word)
    ensures ToHash(v) == ToHash(w) <==> v == w
  {
    hide ToHash, FromHash;
    FromToHash(v);
    FromToHash(w);
  }

  lemma {:induction false} FoldAppend(h: Word, a: seq<Token>, b: seq<Token>)
    ensures Fold(h, a + b) == Fold(Fold(h, a), b)
    decreases |b|
  {
    if |b| == 0 {
      assert a + b == a;
    } else {
      assert (a + b)[..|a + b| - 1] == a + b[..|b| - 1];
      FoldAppend(h, a, b[..|b| - 1]);
    }
  }

  // Over equal following tokens, running hashes meet exactly when they
  // started equal: distinct ones stay distinct for ever.
  lemma {:induction false} FoldIsInjective(g: Word, h: Word, tokens: seq<Token>)
    ensures Fold(g, tokens) == Fold(h, tokens) <==> g == h
    decreases |tokens|
  {
    if |tokens| > 0 {
      var front, t := tokens[..|tokens| - 1], tokens[|tokens| - 1];
      FoldIsInjective(g, h, front);
      MixIsBijective(Fold(g, front), t);
      MixIsBijective(Fold(h, front), t);
    }
  }

  lemma SharedTailSharesHash(a: seq<Token>, b: seq<Token>, tail: seq<Token>)
    ensures BlockHash(a + tail) == BlockHash(b + tail) <==> BlockHash(a) == BlockHash(b)
  {
    ToHashIsInjective(Running(a + tail), Running(b + tail));
    ToHashIsInjective(Running(a), Running(b));
    FoldAppend(FNV_OFFSET, a, tail);
    FoldAppend(FNV_OFFSET, b, tail);
    FoldIsInjective(Running(a), Running(b), tail);
  }

  lemma RunningSnoc(a: seq<Token>, t: Token)
    ensures Running(a + [t]) == Mix(Running(a), t)
  {
    assert (a + [t])[..|a|] == a;
  }

  // Any two prompts, whatever their lengths, seen up to the last token where
  // they differ: their hashes meet exactly when the hashes before that token
  // differ by just the two tokens.
  lemma MeetsExactlyWhen(a: seq<Token>, t: Token, b: seq<Token>, u: Token, tail: seq<Token>)
    ensures BlockHash(a + [t] + tail) == BlockHash(b + [u] + tail)
       <==> Running(a) ^ (t as Word) == Running(b) ^ (u as Word)
  {
    hide Scale, Unscale, Running, ToHash;
    SharedTailSharesHash(a + [t], b + [u], tail);
    ToHashIsInjective(Running(a + [t]), Running(b + [u]));
    RunningSnoc(a, t);
    RunningSnoc(b, u);
    UnscaleScale(Running(a) ^ (t as Word));
    UnscaleScale(Running(b) ^ (u as Word));
  }

  // The half of a running hash that no 32-bit token can reach.
  function UpperHalf(h: Word): Word {
    h >> 32
  }

  lemma TokensKeepUpperHalf(g: Word, t: Token, h: Word, u: Token)
    requires g ^ (t as Word) == h ^ (u as Word)
    ensures UpperHalf(g) == UpperHalf(h)
  {
  }

  // The token that takes h to where t takes g.
  function Bridge(g: Word, t: Token, h: Word): (u: Token)
    requires UpperHalf(g) == UpperHalf(h)
    ensures h ^ (u as Word) == g ^ (t as Word)
  {
    ((g ^ (t as Word) ^ h) & 0xffff_ffff) as Token
  }

  lemma MeetingSharesUpperHalf(a: seq<Token>, t: Token, b: seq<Token>, u: Token, tail: seq<Token>)
    requires BlockHash(a + [t] + tail) == BlockHash(b + [u] + tail)
    ensures UpperHalf(Running(a)) == UpperHalf(Running(b))
  {
    hide UpperHalf, Running, BlockHash;
    MeetsExactlyWhen(a, t, b, u, tail);
    TokensKeepUpperHalf(Running(a), t, Running(b), u);
  }

  lemma MeetingToken(a: seq<Token>, t: Token, b: seq<Token>, tail: seq<Token>) returns (u: Token)
    requires UpperHalf(Running(a)) == UpperHalf(Running(b))
    ensures BlockHash(a + [t] + tail) == BlockHash(b + [u] + tail)
  {
    hide UpperHalf, Running, BlockHash, Bridge;
    u := Bridge(Running(a), t, Running(b));
    MeetsExactlyWhen(a, t, b, u, tail);
  }

  // After which prefixes a collision is still to be had: exactly those whose
  // running hashes agree in the upper half. Otherwise no two next tokens and
  // no common tail ever bring the hashes together.
  lemma UpperHalvesDecide(a: seq<Token>, b: seq<Token>)
    ensures UpperHalf(Running(a)) == UpperHalf(Running(b))
       <==> exists t, u, tail :: BlockHash(a + [t] + tail) == BlockHash(b + [u] + tail)
  {
    hide UpperHalf, Running, BlockHash;
    forall t, u, tail | BlockHash(a + [t] + tail) == BlockHash(b + [u] + tail)
      ensures UpperHalf(Running(a)) == UpperHalf(Running(b))
    {
      MeetingSharesUpperHalf(a, t, b, u, tail);
    }
    if UpperHalf(Running(a)) == UpperHalf(Running(b)) {
      var u := MeetingToken(a, 0, b, []);
    }
  }

  // Prompts that differ in exactly one token, at index k, agree on every
  // block before k's and differ on k's block and on every block after it.
  lemma OneTokenSeparates(a: seq<Token>, b: seq<Token>, k: nat)
    requires |a| == |b| && k < |a|
    requires a[k] != b[k]
    requires forall i :: 0 <= i < |a| && i != k ==> a[i] == b[i]
    ensures forall i :: 0 <= i < |BlockChain(a)| ==>
              (BlockChain(a)[i] == BlockChain(b)[i] <==> i < k / 16)
  {
    forall i | 0 <= i < |BlockChain(a)|
      ensures BlockChain(a)[i] == BlockChain(b)[i] <==> i < k / 16
    {
      var n := BLOCK_SIZE * (i + 1);
      if n <= k {
        assert a[..n] == b[..n];
      } else {
        assert a[..k] == b[..k];
        assert a[..n] == a[..k] + [a[k]] + a[k + 1..n];
        assert b[..n] == b[..k] + [b[k]] + a[k + 1..n];
        assert (a[..k] + [a[k]])[..k] == a[..k] && (b[..k] + [b[k]])[..k] == b[..k];
        MixSeparatesTokens(Running(a[..k]), a[k], b[k]);
        ToHashIsInjective(Running(a[..k] + [a[k]]), Running(b[..k] + [b[k]]));
        SharedTailSharesHash(a[..k] + [a[k]], b[..k] + [b[k]], a[k + 1..n]);
      }
    }
  }

  // No token from the end of block i on matters to hash i.
  lemma LaterTokensDoNotMatter(a: seq<Token>, b: seq<Token>, i: nat)
    requires 16 * (i + 1) <= |a| && 16 * (i + 1) <= |b|
    requires forall k :: 0 <= k < 16 * (i + 1) ==> a[k] == b[k]
    ensures i < |BlockChain(a)| && i < |BlockChain(b)|
    ensures BlockChain(a)[i] == BlockChain(b)[i]
  {
    assert a[..16 * (i + 1)] == b[..16 * (i + 1)];
  }

  // The chain of a prompt's extension agrees with its own chain on all its
  // full blocks, and is exactly an extension of it at a block boundary.
  lemma ChainOfExtension(a: seq<Token>, b: seq<Token>)
    ensures BlockChain(a) <= BlockChain(a + b)
    ensures |a| % 16 == 0 ==>
              |BlockChain(a + b)| == |BlockChain(a)| + |BlockChain(b)|
    ensures |a| % 16 == 0 ==>
              forall i :: |BlockChain(a)| <= i < |BlockChain(a + b)| ==>
                BlockChain(a + b)[i] == ToHash(Fold(Running(a), b[..16 * (i + 1) - |a|]))
  {
    forall i | 0 <= i < |BlockChain(a)| ensures BlockChain(a)[i] == BlockChain(a + b)[i] {
      assert (a + b)[..16 * (i + 1)] == a[..16 * (i + 1)];
    }
    if |a| % 16 == 0 {
      forall i | |BlockChain(a)| <= i < |BlockChain(a + b)|
        ensures BlockChain(a + b)[i] == ToHash(Fold(Running(a), b[..16 * (i + 1) - |a|]))
      {
        var n := 16 * (i + 1);
        assert (a + b)[..n] == a + b[..n - |a|];
        FoldAppend(FNV_OFFSET, a, b[..n - |a|]);
      }
    }
  }

  lemma TwoTokens(t: Token, u: Token)
    ensures Running([t, u]) == Mix(Mix(FNV_OFFSET, t), u)
  {
    hide Mix;
    assert [t, u][..1] == [t];
    assert [t][..0] == [];
    assert Fold(FNV_OFFSET, [t]) == Mix(Fold(FNV_OFFSET, []), t);
  }

  // "Equal hash prefixes == equal token prefixes" does need its proviso:
  // two different one-block prompts with the same block hash, and hence,
  // by `SharedTailSharesHash`, the same hash after every common tail.
  lemma BlocksCanCollide() returns (a: seq<Token>, b: seq<Token>)
    ensures |a| == |b| == BLOCK_SIZE && a != b
    ensures BlockChain(a) == BlockChain(b)
    ensures forall tail :: BlockHash(a + tail) == BlockHash(b + tail)
  {
    var tail := seq(14, _ => 0 as Token);
    var x: seq<Token>, y: seq<Token> := [321004325, 2499805619], [2216829732, 0];
    a, b := x + tail, y + tail;
    assert a[1] != b[1];
    TwoTokens(x[0], x[1]);
    TwoTokens(y[0], y[1]);
    SharedTailSharesHash(x, y, tail);
    assert a[..BLOCK_SIZE] == a && b[..BLOCK_SIZE] == b;
    forall t ensures BlockHash(a + t) == BlockHash(b + t) {
      SharedTailSharesHash(a, b, t);
    }
  }

  lemma NextAnswer(tokens: seq<Token>, h: Word, t: Token, next: Word)
    requires Running(tokens) == h && (h ^ (t as Word)) * 0x100_0000_01b3 == next
    ensures Running(tokens + [t]) == next
  {
    RunningSnoc(tokens, t);
  }

  // The hash of one literal prompt, worked out token by token.
  lemma KnownAnswer()
    ensures BlockChain([0, 1, 2, 3, 4, 5, 6, 7, 8, 9, 10, 11, 12, 13, 14, 15]) == [0x7c84dc9477851775]
  {
    hide Running, ToHash;
    var tokens: seq<Token> := [];
    NoTokens();
    NextAnswer(tokens, 0xcbf29ce484222325, 0, 0xaf63bd4c8601b7df);
    tokens := tokens + [0];
    NextAnswer(tokens, 0xaf63bd4c8601b7df, 1, 0x8328707b4eb6e3a);
    tokens := tokens + [1];
    NextAnswer(tokens, 0x8328707b4eb6e3a, 2, 0xd949aa186c0c4928);
    tokens := tokens + [2];
    NextAnswer(tokens, 0xd949aa186c0c4928, 3, 0x4475327f98e05411);
    tokens := tokens + [3];
    NextAnswer(tokens, 0x4475327f98e05411, 4, 0x3378e3d0c52edfaf);
    tokens := tokens + [4];
    NextAnswer(tokens, 0x3378e3d0c52edfaf, 5, 0xa54ac5bf0ea60dde);
    tokens := tokens + [5];
    NextAnswer(tokens, 0xa54ac5bf0ea60dde, 6, 0x841bdba5e4298608);
    tokens := tokens + [6];
    NextAnswer(tokens, 0x841bdba5e4298608, 7, 0xa4dc49e2b28ecb7d);
    tokens := tokens + [7];
    NextAnswer(tokens, 0xa4dc49e2b28ecb7d, 8, 0xb11d013568a3b7cf);
    tokens := tokens + [8];
    NextAnswer(tokens, 0xb11d013568a3b7cf, 9, 0x9800d3c0ce314572);
    tokens := tokens + [9];
    NextAnswer(tokens, 0x9800d3c0ce314572, 10, 0x7aad489e5db90ae8);
    tokens := tokens + [10];
    NextAnswer(tokens, 0x7aad489e5db90ae8, 11, 0x2d7d4819416d7fb9);
    tokens := tokens + [11];
    NextAnswer(tokens, 0x2d7d4819416d7fb9, 12, 0xb96137ea2d10008f);
    tokens := tokens + [12];
    NextAnswer(tokens, 0xb96137ea2d10008f, 13, 0x103284ea9230dce6);
    tokens := tokens + [13];
    NextAnswer(tokens, 0x103284ea9230dce6, 14, 0xb6b4c29669075e38);
    tokens := tokens + [14];
    NextAnswer(tokens, 0xb6b4c29669075e38, 15, 0x7c84dc9477851775);
    tokens := tokens + [15];
    assert tokens == [0, 1, 2, 3, 4, 5, 6, 7, 8, 9, 10, 11, 12, 13, 14, 15];
    assert tokens[..16] == tokens;
    LiteralHash();
  }

  lemma NoTokens()
    ensures Running([]) == 0xcbf2_9ce4_8422_2325
  {
  }

  lemma LiteralHash()
    ensures ToHash(0x7c84dc9477851775) == 0x7c84dc9477851775
  {
  }
}

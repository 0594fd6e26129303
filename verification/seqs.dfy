/** Generic facts about sequences of output lines: where the parts of a
    concatenation land, flattening a list of blocks, and Python's `xs[:n]`. */
module Seqs {

  /** Where the three parts of a concatenation land. */
  lemma Layout<T>(a: seq<T>, p: seq<T>, f: seq<T>)
    ensures |a + p + f| == |a| + |p| + |f|
    ensures (a + p + f)[..|a|] == a
    ensures (a + p + f)[|a|..|a| + |p|] == p
    ensures (a + p + f)[|a| + |p|..] == f
    ensures PlacedAt(a + p + f, 0, a) && PlacedAt(a + p + f, |a|, p) && PlacedAt(a + p + f, |a| + |p|, f)
  {
  }

  /** `x` appears in `s` starting at position `at`. */
  ghost predicate PlacedAt<T>(s: seq<T>, at: nat, x: seq<T>)
  {
    at + |x| <= |s| && s[at..at + |x|] == x
  }

  /** What sits at `at` also holds each prefix of itself there. */
  lemma PlacedPrefix<T>(s: seq<T>, at: nat, x: seq<T>, m: nat)
    requires PlacedAt(s, at, x) && m <= |x|
    ensures PlacedAt(s, at, x[..m])
  {
    assert s[at..at + m] == s[at..at + |x|][..m];
  }

  /** Each element of what sits at `at` is found at its own offset from `at`. */
  lemma PlacedIndex<T>(s: seq<T>, at: nat, x: seq<T>, j: nat)
    requires PlacedAt(s, at, x) && j < |x|
    ensures at + j < |s| && s[at + j] == x[j]
  {
    assert s[at..at + |x|][j] == s[at + j];
  }

  /** A sequence sits at the front of any extension of itself. */
  lemma PlacedFront<T>(a: seq<T>, b: seq<T>)
    ensures PlacedAt(a + b, 0, a)
  {
    assert (a + b)[..|a|] == a;
  }

  /** Putting `a` in front moves what `b` holds by `|a|`. */
  lemma PlacedBehind<T>(a: seq<T>, b: seq<T>, at: nat, x: seq<T>)
    requires PlacedAt(b, at, x)
    ensures PlacedAt(a + b, |a| + at, x)
  {
    assert (a + b)[|a| + at..|a| + at + |x|] == b[at..at + |x|];
  }

  /** Splitting off the head of the first of two concatenated sequences. */
  lemma ConsAppend<T>(s: seq<T>, p: seq<T>)
    requires |s| > 0
    ensures [s[0]] + (s[1..] + p) == s + p
    ensures (s + p)[0] == s[0] && (s + p)[1..] == s[1..] + p
  {
    assert s == [s[0]] + s[1..];
  }

  /** Appending leaves in place what a sequence already holds. */
  lemma PlacedExtend<T>(a: seq<T>, b: seq<T>, at: nat, x: seq<T>)
    requires PlacedAt(a, at, x)
    ensures PlacedAt(a + b, at, x)
  {
    assert (a + b)[at..at + |x|] == a[at..at + |x|];
  }

  /** Concatenation regroups freely. Stated over a generic element type,
      the regrouping costs the solver far less than the same equation
      between concrete sequences built by recursive functions. */
  lemma AppendAssoc<T>(p: seq<T>, q: seq<T>, w: seq<T>)
    ensures p + (q + w) == (p + q) + w
  {
  }

  /** The blocks, one after the other. */
  function Flatten<T>(blocks: seq<seq<T>>): seq<T>
  {
    if |blocks| == 0 then [] else blocks[0] + Flatten(blocks[1..])
  }

  /** Block `i` sits right after the blocks before it. */
  lemma {:induction false} FlattenPlaced<T>(blocks: seq<seq<T>>, i: nat)
    requires i < |blocks|
    ensures PlacedAt(Flatten(blocks), |Flatten(blocks[..i])|, blocks[i])
  {
    var rest := blocks[1..];
    assert Flatten(blocks) == blocks[0] + Flatten(rest);
    if i == 0 {
      assert blocks[..0] == [];
      PlacedFront(blocks[0], Flatten(rest));
    } else {
      FlattenPlaced(rest, i - 1);
      var front := blocks[..i];
      assert front[0] == blocks[0] && front[1..] == rest[..i - 1];
      assert Flatten(front) == blocks[0] + Flatten(rest[..i - 1]);
      PlacedBehind(blocks[0], Flatten(rest), |Flatten(rest[..i - 1])|, rest[i - 1]);
    }
  }

  /** Blocks that all have `m` lines: block `i` sits at `m * i`. */
  lemma {:induction false} FlattenUniform<T>(blocks: seq<seq<T>>, m: nat, i: nat)
    requires forall j :: 0 <= j < |blocks| ==> |blocks[j]| == m
    requires i < |blocks|
    ensures |Flatten(blocks)| == m * |blocks|
    ensures PlacedAt(Flatten(blocks), m * i, blocks[i])
  {
    var rest := blocks[1..];
    var f := Flatten(blocks);
    assert f == blocks[0] + Flatten(rest);
    if i == 0 {
      if |rest| > 0 {
        FlattenUniform(rest, m, 0);
      }
    } else {
      FlattenUniform(rest, m, i - 1);
      var g := Flatten(rest);
      var k := m * (i - 1);
      assert m * i == m + k;
      assert f[m + k..m + k + m] == g[k..k + m];
    }
  }

  function Min(a: int, b: int): int
  {
    if a <= b then a else b
  }

  /** Python's `xs[:n]`: the first `n` elements, or all but the last `-n`
      when `n` is negative, and never more than there are. */
  function SliceTo<T>(xs: seq<T>, n: int): (r: seq<T>)
    ensures n >= 0 ==> |r| == Min(n, |xs|)
    ensures n < 0 ==> |r| == if |xs| + n > 0 then |xs| + n else 0
    ensures r == xs[..|r|]
  {
    if n >= 0 then (if n >= |xs| then xs else xs[..n])
    else if |xs| + n <= 0 then []
    else xs[..|xs| + n]
  }
}

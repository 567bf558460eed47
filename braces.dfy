/** The balanced-block shape `\{(?:[^\{\}]+|(?R))*\}` that the block patterns of `Main`
    recognise: a `{`, then any mix of brace-free text and nested blocks, then `}`. */
module Braces {
  import opened Wrappers

  /** How a character changes the nesting depth. */
  function Delta(c: char): int {
    if c == '{' then 1 else if c == '}' then -1 else 0
  }

  /** The net nesting depth of `s[j..n]`. */
  function Depth(s: string, j: nat, n: nat): int
    requires j <= n <= |s|
    decreases n - j
  {
    if n == j then 0 else Depth(s, j, n - 1) + Delta(s[n - 1])
  }

  /** `s[j..k]` is the rest of an open block: `k` is the first point from `j` at which
      the depth drops below where it started. */
  predicate Closes(s: string, j: nat, k: nat)
    requires j <= k <= |s|
  {
    Depth(s, j, k) == -1 && forall n :: j <= n < k ==> Depth(s, j, n) >= 0
  }

  /** A balanced block: an opening brace whose matching closing brace is the last
      character. This is the reference reading of the pattern. */
  predicate Balanced(t: string) {
    |t| >= 2 && t[0] == '{' && Closes(t, 1, |t|)
  }

  // ---------------------------------------------------------------------------
  // The recogniser
  // ---------------------------------------------------------------------------

  /** The block opening at `s[i]`: the index just after its closing brace, or `None`
      when the text ends first. */
  function Block(s: string, i: nat): (r: Option<nat>)
    requires i < |s| && s[i] == '{'
    ensures r.Some? ==> i < r.value <= |s|
    decreases |s| - i, 0
  {
    Items(s, i + 1)
  }

  /** The contents of an open block from `j`: brace-free characters and nested blocks,
      up to and including the closing brace. */
  function Items(s: string, j: nat): (r: Option<nat>)
    requires j <= |s|
    ensures r.Some? ==> j < r.value <= |s|
    decreases |s| - j, 1
  {
    if j == |s| then None
    else if s[j] == '}' then Some(j + 1)
    else if s[j] == '{' then
      var m := Block(s, j);
      if m.None? then None else Items(s, m.value)
    else Items(s, j + 1)
  }

  // ---------------------------------------------------------------------------
  // Depth arithmetic
  // ---------------------------------------------------------------------------

  /** Depths add up over adjacent stretches. */
  lemma {:induction false} DepthSplit(s: string, a: nat, b: nat, c: nat)
    requires a <= b <= c <= |s|
    ensures Depth(s, a, c) == Depth(s, a, b) + Depth(s, b, c)
    decreases c - b
  {
    if c > b {
      DepthSplit(s, a, b, c - 1);
    }
  }

  /** From a stretch of depth at least one that ends below zero, there is a first point
      after `a` at which the depth is back to zero. */
  lemma {:induction false} FirstReturn(s: string, j: nat, a: nat, k: nat) returns (m: nat)
    requires j < a < k <= |s|
    requires forall n :: j < n <= a ==> Depth(s, j, n) >= 1
    requires Depth(s, j, k) < 0
    ensures a < m < k && Depth(s, j, m) == 0
    ensures forall n :: j < n < m ==> Depth(s, j, n) >= 1
    decreases k - a
  {
    assert Depth(s, j, a + 1) == Depth(s, j, a) + Delta(s[a]);
    if Depth(s, j, a + 1) == 0 {
      m := a + 1;
    } else {
      m := FirstReturn(s, j, a + 1, k);
    }
  }

  // ---------------------------------------------------------------------------
  // The recogniser finds exactly the balanced blocks
  // ---------------------------------------------------------------------------

  /** What the contents scan accepts ends at the first closing point. */
  lemma {:induction false} ItemsSound(s: string, j: nat)
    requires j <= |s|
    ensures Items(s, j).Some? ==> Closes(s, j, Items(s, j).value)
    decreases |s| - j
  {
    var r := Items(s, j);
    if r.Some? {
      var k := r.value;
      if s[j] == '}' {
        assert Depth(s, j, j + 1) == -1;
      } else if s[j] == '{' {
        var m := Block(s, j).value;
        ItemsSound(s, j + 1);
        ItemsSound(s, m);
        forall n | j <= n < k ensures Depth(s, j, n) >= 0 {
          if n > j {
            DepthSplit(s, j, j + 1, n);
          }
          if n >= m {
            DepthSplit(s, j, m, n);
            DepthSplit(s, j, j + 1, m);
          }
        }
        DepthSplit(s, j, m, k);
        DepthSplit(s, j, j + 1, m);
      } else {
        ItemsSound(s, j + 1);
        forall n | j < n <= k ensures Depth(s, j, n) == Depth(s, j + 1, n) {
          DepthSplit(s, j, j + 1, n);
        }
      }
    }
  }

  /** The contents scan accepts every stretch that ends at its first closing point. */
  lemma {:induction false} ItemsComplete(s: string, j: nat, k: nat)
    requires j <= k <= |s| && Closes(s, j, k)
    ensures Items(s, j) == Some(k)
    decreases |s| - j
  {
    assert j < k;
    assert Depth(s, j, j + 1) == Delta(s[j]);
    if s[j] == '{' {
      var m := FirstReturn(s, j, j + 1, k);
      var inner := j + 1;
      forall n | inner <= n <= m ensures Depth(s, inner, n) == Depth(s, j, n) - 1 {
        DepthSplit(s, j, inner, n);
      }
      ItemsComplete(s, inner, m);
      forall n | m <= n <= k ensures Depth(s, m, n) == Depth(s, j, n) {
        DepthSplit(s, j, m, n);
      }
      ItemsComplete(s, m, k);
    } else if s[j] != '}' {
      var next := j + 1;
      assert next < k;
      forall n | next <= n <= k ensures Depth(s, next, n) == Depth(s, j, n) {
        DepthSplit(s, j, next, n);
      }
      ItemsComplete(s, next, k);
    }
  }

  /** Depths measured inside a slice are depths of the whole text. */
  lemma {:induction false} DepthOfSlice(s: string, i: nat, k: nat, j: nat, n: nat)
    requires i <= k <= |s| && j <= n <= k - i
    ensures Depth(s[i..k], j, n) == Depth(s, i + j, i + n)
    decreases n - j
  {
    if n > j {
      DepthOfSlice(s, i, k, j, n - 1);
    }
  }

  /** The recogniser accepts a block opening at `s[i]` and ending just before `k` exactly
      when `s[i..k]` is balanced; so the block it finds is the only balanced one there. */
  lemma BlockIffBalanced(s: string, i: nat, k: nat)
    requires i < k <= |s| && s[i] == '{'
    ensures Block(s, i) == Some(k) <==> Balanced(s[i..k])
  {
    var t := s[i..k];
    if k - i >= 2 {
      forall n | 1 <= n <= |t| ensures Depth(t, 1, n) == Depth(s, i + 1, i + n) {
        DepthOfSlice(s, i, k, 1, n);
      }
    }
    var inner := i + 1;
    if Block(s, i) == Some(k) {
      ItemsSound(s, inner);
    }
    if Balanced(t) {
      forall n | inner <= n < k ensures Depth(s, inner, n) >= 0 {
        assert Depth(t, 1, n - i) >= 0;
      }
      assert Depth(t, 1, |t|) == Depth(s, inner, k);
      ItemsComplete(s, i + 1, k);
    }
  }
}

/** The Fisher-Yates shuffle of `shuffleDeck` (src/lib/solitaire.ts, lines 59-68).

    `Math.random()` is not modelled: the shuffle takes the sequence of draws it
    would have returned, each a real number in [0, 1), consumed one per pass. */
module Shuffle {
  import opened Cards

  /** Every draw lies in [0, 1), as `Math.random()` promises. */
  predicate RandomDraws(randoms: seq<real>)
  {
    forall k :: 0 <= k < |randoms| ==> 0.0 <= randoms[k] < 1.0
  }

  /** `r * n` over the reals, written as n additions of r. */
  function Scaled(r: real, n: nat): real
    decreases n
  {
    if n == 0 then 0.0 else Scaled(r, n - 1) + r
  }

  /** The repeated sum is the product the source computes. */
  lemma {:induction false} ScaledIsProduct(r: real, n: nat)
    ensures Scaled(r, n) == r * n as real
    decreases n
  {
    if n > 0 {
      ScaledIsProduct(r, n - 1);
      assert r * n as real == r * (n - 1) as real + r;
    }
  }

  /** A draw in [0, 1) scaled by n lies in [0, n). */
  lemma {:induction false} ScaledDrawBounds(r: real, n: nat)
    requires 0.0 <= r < 1.0 && n >= 1
    ensures 0.0 <= Scaled(r, n) < n as real
    decreases n
  {
    if n > 1 {
      ScaledDrawBounds(r, n - 1);
    }
  }

  /** The swap partner `Math.floor(r * (i + 1))` chosen in the pass for position i:
      always one of the positions 0..i. */
  function SwapIndex(r: real, i: nat): (j: int)
    requires 0.0 <= r < 1.0
    ensures 0 <= j <= i
  {
    ScaledDrawBounds(r, i + 1);
    Scaled(r, i + 1).Floor
  }

  /** Positions i and j exchanged. */
  function Swap(s: seq<Card>, i: nat, j: nat): seq<Card>
    requires i < |s| && j < |s|
  {
    seq(|s|, m requires 0 <= m < |s| => if m == j then s[i] else if m == i then s[j] else s[m])
  }

  /** The deck after the first k passes of the loop. Pass k handles position |s| - k, the
      loop running i from the last position down to 1, and consumes draw number k - 1. */
  function AfterPasses(s: seq<Card>, randoms: seq<real>, k: nat): (r: seq<Card>)
    requires RandomDraws(randoms) && |s| <= |randoms| + 1
    requires k == 0 || k < |s|
    ensures |r| == |s|
    decreases k
  {
    if k == 0 then s
    else
      var i := |s| - k;
      Swap(AfterPasses(s, randoms, k - 1), i, SwapIndex(randoms[k - 1], i))
  }

  /** How many passes the loop makes over an n-card deck: one per position n-1 down to 1. */
  function Passes(n: nat): (k: nat)
    ensures k == 0 || k < n
  {
    if n == 0 then 0 else n - 1
  }

  /** The deck `shuffleDeck` returns for the given draws. */
  function Shuffled(s: seq<Card>, randoms: seq<real>): seq<Card>
    requires RandomDraws(randoms) && |s| <= |randoms| + 1
  {
    AfterPasses(s, randoms, Passes(|s|))
  }

  /** The shuffle only exchanges cards: after any number of passes the deck is a permutation
      of its input. */
  lemma {:induction false} AfterPassesIsPermutation(s: seq<Card>, randoms: seq<real>, k: nat)
    requires RandomDraws(randoms) && |s| <= |randoms| + 1
    requires k == 0 || k < |s|
    ensures multiset(AfterPasses(s, randoms, k)) == multiset(s)
    decreases k
  {
    if k > 0 {
      PassIsPermutation(s, randoms, k);
      AfterPassesIsPermutation(s, randoms, k - 1);
    }
  }

  /** One pass only exchanges two cards. */
  lemma PassIsPermutation(s: seq<Card>, randoms: seq<real>, k: nat)
    requires RandomDraws(randoms) && |s| <= |randoms| + 1
    requires 0 < k < |s|
    ensures multiset(AfterPasses(s, randoms, k)) == multiset(AfterPasses(s, randoms, k - 1))
  {
    var i := |s| - k;
    SwapKeepsMultiset(AfterPasses(s, randoms, k - 1), i, SwapIndex(randoms[k - 1], i));
  }

  /** The shuffled deck is a permutation of the input deck. */
  lemma ShuffledIsPermutation(s: seq<Card>, randoms: seq<real>)
    requires RandomDraws(randoms) && |s| <= |randoms| + 1
    ensures |Shuffled(s, randoms)| == |s|
    ensures multiset(Shuffled(s, randoms)) == multiset(s)
  {
    AfterPassesIsPermutation(s, randoms, Passes(|s|));
  }

  /** Exchanging two positions keeps the multiset of cards. */
  lemma SwapKeepsMultiset(s: seq<Card>, i: nat, j: nat)
    requires i < |s| && j < |s|
    ensures multiset(Swap(s, i, j)) == multiset(s)
  {
    var t := s[i := s[j]];
    assert Swap(s, i, j) == t[j := s[i]];
    assert multiset(t) == multiset(s) - multiset{s[i]} + multiset{s[j]};
    assert multiset(t[j := s[i]]) == multiset(t) - multiset{t[j]} + multiset{s[i]};
  }

  /** Copies the deck into a fresh array and swaps in place from the last position down to 1;
      the input sequence itself is never changed. */
  method ShuffleDeck(deck: seq<Card>, randoms: seq<real>) returns (shuffled: seq<Card>)
    requires RandomDraws(randoms)
    requires |deck| <= |randoms| + 1
    ensures shuffled == Shuffled(deck, randoms)
    ensures |shuffled| == |deck| && multiset(shuffled) == multiset(deck)
  {
    var a := new Card[|deck|](k requires 0 <= k < |deck| => deck[k]);
    var i := |deck| - 1;
    while i > 0
      invariant -1 <= i < |deck| && a.Length == |deck|
      invariant i >= 0 ==> a[..] == AfterPasses(deck, randoms, |deck| - 1 - i)
      invariant i < 0 ==> |deck| == 0 && a[..] == deck
    {
      var j := SwapIndex(randoms[|deck| - 1 - i], i);
      ghost var before := a[..];
      a[i], a[j] := a[j], a[i];
      assert a[..] == Swap(before, i, j);
      i := i - 1;
    }
    shuffled := a[..];
    ShuffledIsPermutation(deck, randoms);
  }
}

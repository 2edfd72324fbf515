/** The two placement predicates of src/lib/solitaire.ts (lines 124-149), and the
    pile shapes they build: a foundation is a same-suit run counting up from the Ace,
    and the face-up part of a tableau pile is a run of alternating colours counting down. */
module Rules {
  import opened Optional
  import opened Cards
  import opened GameStates

  /** `canPlaceOnFoundation(card, topCard)`: only a face-up card; an empty foundation
      takes only an Ace, otherwise the next value of the top card's suit. */
  predicate CanPlaceOnFoundation(card: Card, topCard: Option<Card>)
  {
    if !card.faceUp then false
    else if topCard.None? then card.value == Ace
    else topCard.value.suit == card.suit && ValueOrder(card.value) == ValueOrder(topCard.value.value) + 1
  }

  /** `canPlaceOnTableau(card, topCard)`: only a face-up card; an empty pile takes only a
      King, otherwise the top must be face up, of the other colour and one value higher. */
  predicate CanPlaceOnTableau(card: Card, topCard: Option<Card>)
  {
    if !card.faceUp then false
    else if topCard.None? then card.value == King
    else
      topCard.value.faceUp && topCard.value.color != card.color
      && ValueOrder(card.value) == ValueOrder(topCard.value.value) - 1
  }

  /** A foundation pile built by the rule: one suit, the k-th card of value order k + 1. */
  predicate FoundationRun(p: seq<Card>)
  {
    forall k :: 0 <= k < |p| ==> p[k].suit == p[0].suit && ValueOrder(p[k].value) == k + 1
  }

  /** Placing a card the rule accepts keeps a foundation a same-suit run from the Ace. */
  lemma FoundationRuleKeepsRun(p: seq<Card>, c: Card)
    requires FoundationRun(p)
    requires CanPlaceOnFoundation(c, TopOf(p))
    ensures FoundationRun(p + [c])
  {
    var q := p + [c];
    forall k | 0 <= k < |q|
      ensures q[k].suit == q[0].suit && ValueOrder(q[k].value) == k + 1
    {
      if |p| > 0 {
        assert q[0] == p[0];
        if k < |p| { assert q[k] == p[k]; }
      }
    }
  }

  /** A foundation run never exceeds 13 cards, and a run of 13 holds A..K in order. */
  lemma FoundationRunBounded(p: seq<Card>)
    requires FoundationRun(p)
    ensures |p| <= SUIT_SIZE
    ensures |p| == SUIT_SIZE ==> forall k :: 0 <= k < |p| ==> p[k].value == VALUES[k]
  {
    if |p| > 0 {
      assert ValueOrder(p[|p| - 1].value) == |p|;
    }
  }

  /** A run of face-up cards alternating in colour and descending by one. */
  predicate Alternating(run: seq<Card>)
  {
    && (forall k :: 0 <= k < |run| ==> run[k].faceUp)
    && (forall k :: 0 < k < |run| ==>
          run[k].color != run[k - 1].color && ValueOrder(run[k].value) == ValueOrder(run[k - 1].value) - 1)
  }

  /** Dropping an alternating run whose first card the rule accepts onto a pile whose face-up
      part (from index `from`) is alternating keeps that part alternating; on an empty pile
      the run starts with a King. */
  lemma TableauRuleKeepsRun(p: seq<Card>, from: nat, cards: seq<Card>)
    requires from <= |p| && Alternating(p[from..])
    requires |cards| > 0 && Alternating(cards)
    requires CanPlaceOnTableau(cards[0], TopOf(p))
    ensures Alternating((p + cards)[from..])
    ensures |p| == 0 ==> cards[0].value == King
  {
    var q := (p + cards)[from..];
    assert q == p[from..] + cards;
    var n := |p| - from;
    forall k | 0 < k < |q|
      ensures q[k].color != q[k - 1].color && ValueOrder(q[k].value) == ValueOrder(q[k - 1].value) - 1
    {
      if k < n {
        assert q[k] == p[from..][k] && q[k - 1] == p[from..][k - 1];
      } else if k == n {
        assert q[k - 1] == p[|p| - 1] && q[k] == cards[0];
      } else {
        assert q[k] == cards[k - n] && q[k - 1] == cards[k - n - 1];
      }
    }
  }

  /** An empty foundation refuses the two of hearts. */
  lemma EmptyFoundationRefusesTwo()
    ensures !CanPlaceOnFoundation(MakeCard(Heart, Two).(faceUp := true), None)
  {
  }

  /** A red six goes onto a face-up black seven. */
  lemma RedSixOnBlackSeven()
    ensures CanPlaceOnTableau(MakeCard(Diamond, Six).(faceUp := true), Some(MakeCard(Spade, Seven).(faceUp := true)))
  {
  }
}

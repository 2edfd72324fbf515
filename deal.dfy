/** The opening deal of `initializeGame` (src/lib/solitaire.ts, lines 70-98): the last 28
    cards of the shuffled deck go, row by row, onto the seven tableau piles, the first card
    of each row face up; the rest stays in the stock. `Date.now()` is the parameter `now`. */
module Deal {
  import opened Optional
  import opened Cards
  import opened Shuffle
  import opened GameStates

  /** Cards on the tableau after the deal: 1 + 2 + ... + 7. */
  const DEALT: nat := 28

  /** How many cards rows i..6 of the deal still take: row r puts one card on piles r..6. */
  function Remaining(i: nat): nat
    requires i <= TABLEAU_COUNT
    decreases TABLEAU_COUNT - i
  {
    if i == TABLEAU_COUNT then 0 else TABLEAU_COUNT - i + Remaining(i + 1)
  }

  lemma RemainingAtStart()
    ensures Remaining(0) == DEALT
  {
    assert Remaining(6) == 1 && Remaining(5) == 3 && Remaining(4) == 6 && Remaining(3) == 10;
    assert Remaining(2) == 15 && Remaining(1) == 21;
  }

  /** Before row r of the deal, between 0 and 28 cards have been popped, and row r still
      has 7 - r cards to pop. */
  lemma {:induction false} RemainingBounds(r: nat)
    requires r <= TABLEAU_COUNT
    ensures Remaining(r) <= DEALT
    ensures r < TABLEAU_COUNT ==> TABLEAU_COUNT - r <= Remaining(r)
  {
    if r == 0 {
      RemainingAtStart();
    } else {
      RemainingBounds(r - 1);
    }
  }

  /** How many cards the deal pops before the one row r puts on pile c (r <= c): all of
      rows 0..r-1, then those of row r for piles r..c-1. */
  function DealDepth(r: nat, c: nat): (d: nat)
    requires r <= c < TABLEAU_COUNT
    ensures d < DEALT
  {
    RemainingBounds(r);
    DEALT - Remaining(r) + (c - r)
  }

  /** Piles that are all empty hold no identities. */
  lemma {:induction false} EmptyPilesBag(ps: seq<seq<Card>>)
    requires forall k :: 0 <= k < |ps| ==> ps[k] == []
    ensures PilesBag(ps) == multiset{}
    decreases |ps|
  {
    if |ps| > 0 {
      EmptyPilesBag(ps[..|ps| - 1]);
      assert IdBag(ps[|ps| - 1]) == multiset{};
    }
  }

  /** The identities held by the undealt deck and the piles together. */
  function InPlay(deck: seq<Card>, piles: seq<seq<Card>>): multiset<string>
  {
    IdBag(deck) + PilesBag(piles)
  }

  /** One step of the deal: the deck's last card, possibly turned over, moves onto pile j. */
  lemma DealStepKeepsIds(deck: seq<Card>, piles: seq<seq<Card>>, j: nat, card: Card)
    requires |deck| > 0 && j < |piles| && card.id == deck[|deck| - 1].id
    ensures InPlay(deck[..|deck| - 1], piles[j := piles[j] + [card]]) == InPlay(deck, piles)
  {
    var n := |deck| - 1;
    assert deck == deck[..n] + [deck[n]];
    IdBagPush(deck[..n], deck[n]);
    PilesBagPush(piles, j, card);
  }

  /** The deck `initializeGame` deals from: the canonical deck shuffled with the given draws. */
  function ShuffledDeck(randoms: seq<real>): (d: seq<Card>)
    requires RandomDraws(randoms) && |randoms| >= DECK_SIZE - 1
    ensures |d| == DECK_SIZE && multiset(d) == multiset(CanonicalDeck())
  {
    ShuffledIsPermutation(CanonicalDeck(), randoms);
    Shuffled(CanonicalDeck(), randoms)
  }

  /** The shuffled deck holds each of the 52 identities once, every card face down. */
  lemma ShuffledDeckFacts(randoms: seq<real>)
    requires RandomDraws(randoms) && |randoms| >= DECK_SIZE - 1
    ensures AllFaceDown(ShuffledDeck(randoms))
    ensures IdBag(ShuffledDeck(randoms)) == IdBag(CanonicalDeck())
  {
    var d := ShuffledDeck(randoms);
    CanonicalDeckFaceDown();
    PermutationKeepsFaceDown(d, CanonicalDeck());
    PermutationKeepsIdBag(d, CanonicalDeck());
  }

  /** `createDeck` makes every card face down. */
  lemma CanonicalDeckFaceDown()
    ensures AllFaceDown(CanonicalDeck())
  {
    forall k | 0 <= k < DECK_SIZE
      ensures !CanonicalDeck()[k].faceUp
    {
      MakeCardWellFormed(SUITS[k / 13], VALUES[k % 13]);
    }
  }

  /** Rearranging face-down cards leaves them all face down. */
  lemma PermutationKeepsFaceDown(a: seq<Card>, b: seq<Card>)
    requires multiset(a) == multiset(b) && AllFaceDown(b)
    ensures AllFaceDown(a)
  {
    forall k | 0 <= k < |a|
      ensures !a[k].faceUp
    {
      assert a[k] in multiset(b);
      var m :| 0 <= m < |b| && b[m] == a[k];
    }
  }

  /** The card row i of the deal puts on pile c (c >= i): taken from the top of the
      remaining deck, turned face up when it is the first card of the row. */
  function RowCard(deck: seq<Card>, i: nat, c: nat): (card: Card)
    requires i <= c < |deck| + i
    ensures card.id == deck[|deck| - 1 - (c - i)].id
    ensures card.faceUp <==> (c == i || deck[|deck| - 1 - (c - i)].faceUp)
  {
    var top := deck[|deck| - 1 - (c - i)];
    if c == i then top.(faceUp := true) else top
  }

  /** Row i dealt onto piles i..j-1: each of those piles has gained its row card, the others
      are unchanged, the deck has lost its last j - i cards, and no identity is lost or gained. */
  predicate RowSoFar(tableau: seq<seq<Card>>, deck: seq<Card>, i: nat, j: nat, piles: seq<seq<Card>>, rest: seq<Card>)
    requires |tableau| == TABLEAU_COUNT && i <= j <= TABLEAU_COUNT && |deck| >= TABLEAU_COUNT - i
  {
    && |piles| == TABLEAU_COUNT
    && rest == deck[..|deck| - (j - i)]
    && (forall c :: 0 <= c < TABLEAU_COUNT && !(i <= c < j) ==> piles[c] == tableau[c])
    && (forall c :: i <= c < j ==> piles[c] == tableau[c] + [RowCard(deck, i, c)])
    && InPlay(rest, piles) == InPlay(deck, tableau)
  }

  /** The card row r of the deal leaves on pile c: the card DealDepth(r, c) places from the
      end of the deck, turned face up when it opens the row. */
  function DealtCard(deck: seq<Card>, r: nat, c: nat): (card: Card)
    requires |deck| >= DEALT && r <= c < TABLEAU_COUNT
    ensures card.id == deck[|deck| - 1 - DealDepth(r, c)].id
    ensures card.faceUp <==> (r == c || deck[|deck| - 1 - DealDepth(r, c)].faceUp)
  {
    RemainingBounds(r);
    RowCard(deck[..|deck| - DEALT + Remaining(r)], r, c)
  }

  /** From a face-down deck, the dealt card is the deck card itself, face up exactly when it
      opens its row. */
  lemma DealtCardOfFaceDown(deck: seq<Card>, r: nat, c: nat)
    requires |deck| >= DEALT && r <= c < TABLEAU_COUNT && AllFaceDown(deck)
    ensures DealtCard(deck, r, c) == deck[|deck| - 1 - DealDepth(r, c)].(faceUp := r == c)
  {
    RemainingBounds(r);
    var top := deck[|deck| - 1 - DealDepth(r, c)];
    assert !top.faceUp;
  }

  /** Popping the next card onto pile j extends the row by one pile. */
  lemma RowStep(tableau: seq<seq<Card>>, deck: seq<Card>, i: nat, j: nat, piles: seq<seq<Card>>, rest: seq<Card>, card: Card)
    requires |tableau| == TABLEAU_COUNT && i <= j < TABLEAU_COUNT && |deck| >= TABLEAU_COUNT - i
    requires RowSoFar(tableau, deck, i, j, piles, rest)
    requires card == RowCard(deck, i, j)
    ensures |rest| > 0
    ensures RowSoFar(tableau, deck, i, j + 1, piles[j := piles[j] + [card]], rest[..|rest| - 1])
  {
    DealStepKeepsIds(rest, piles, j, card);
  }

  /** One pass of the outer loop: pops a card for each of piles i..6 in turn. */
  method DealRow(tableau: seq<seq<Card>>, deck: seq<Card>, i: nat) returns (piles: seq<seq<Card>>, rest: seq<Card>)
    requires |tableau| == TABLEAU_COUNT && i < TABLEAU_COUNT && |deck| >= TABLEAU_COUNT - i
    ensures |piles| == TABLEAU_COUNT && rest == deck[..|deck| - (TABLEAU_COUNT - i)]
    ensures forall c :: 0 <= c < i ==> piles[c] == tableau[c]
    ensures forall c :: i <= c < TABLEAU_COUNT ==> piles[c] == tableau[c] + [RowCard(deck, i, c)]
    ensures InPlay(rest, piles) == InPlay(deck, tableau)
  {
    piles, rest := tableau, deck;
    var j := i;
    while j < TABLEAU_COUNT
      invariant i <= j <= TABLEAU_COUNT
      invariant RowSoFar(tableau, deck, i, j, piles, rest)
    {
      var card := rest[|rest| - 1];
      if i == j {
        card := card.(faceUp := true);
      }
      RowStep(tableau, deck, i, j, piles, rest, card);
      rest := rest[..|rest| - 1];
      piles := piles[j := piles[j] + [card]];
      j := j + 1;
    }
  }

  /** The tableau after rows 0..i-1 of the deal: pile c holds min(c + 1, i) cards, the card
      at row c of pile c is face up, and (for a face-down deck) every other card is face down. */
  predicate DealtRows(t: seq<seq<Card>>, i: nat, downs: bool)
  {
    && |t| == TABLEAU_COUNT
    && (forall c :: 0 <= c < TABLEAU_COUNT ==> |t[c]| == if c < i then c + 1 else i)
    && (forall c :: 0 <= c < TABLEAU_COUNT && c < i ==> t[c][c].faceUp)
    && (downs ==> forall c, r :: 0 <= c < TABLEAU_COUNT && 0 <= r < |t[c]| && r != c ==> !t[c][r].faceUp)
  }

  lemma DealRowShape(before: seq<seq<Card>>, after: seq<seq<Card>>, deck: seq<Card>, i: nat, downs: bool)
    requires i < TABLEAU_COUNT && |deck| >= TABLEAU_COUNT - i
    requires DealtRows(before, i, downs)
    requires downs ==> AllFaceDown(deck)
    requires |after| == TABLEAU_COUNT
    requires forall c :: 0 <= c < i ==> after[c] == before[c]
    requires forall c :: i <= c < TABLEAU_COUNT ==> after[c] == before[c] + [RowCard(deck, i, c)]
    ensures DealtRows(after, i + 1, downs)
  {
    forall c | i <= c < TABLEAU_COUNT
      ensures |after[c]| == i + 1 && after[c][i] == RowCard(deck, i, c)
      ensures forall r :: 0 <= r < i ==> after[c][r] == before[c][r]
    {
    }
  }

  /** Cutting a prefix of a prefix is cutting a prefix; a prefix of a face-down deck is face down. */
  lemma PrefixOfPrefix(deck: seq<Card>, m: nat, n: nat)
    requires n <= m <= |deck|
    ensures deck[..m][..n] == deck[..n]
    ensures AllFaceDown(deck) ==> AllFaceDown(deck[..m])
  {
  }

  /** The deal after rows 0..i-1: the deck has lost its last Remaining(0) - Remaining(i)
      cards, the tableau has the shape of those rows, every dealt position holds its
      DealtCard, and no identity is lost or gained. */
  predicate DealtSoFar(deck: seq<Card>, i: nat, tableau: seq<seq<Card>>, rest: seq<Card>)
    requires |deck| >= DEALT && i <= TABLEAU_COUNT
  {
    && Remaining(i) <= DEALT
    && rest == deck[..|deck| - DEALT + Remaining(i)]
    && DealtRows(tableau, i, AllFaceDown(deck))
    && (forall c, r :: 0 <= r <= c < TABLEAU_COUNT && r < |tableau[c]| ==> tableau[c][r] == DealtCard(deck, r, c))
    && InPlay(rest, tableau) == IdBag(deck)
  }

  /** Row i puts its DealtCard on top of each of piles i..6 and leaves the dealt positions
      below them alone. */
  lemma DealRowPositions(deck: seq<Card>, i: nat, tableau: seq<seq<Card>>, rest: seq<Card>, piles: seq<seq<Card>>)
    requires |deck| >= DEALT && i < TABLEAU_COUNT
    requires DealtSoFar(deck, i, tableau, rest)
    requires |rest| >= TABLEAU_COUNT - i && |piles| == TABLEAU_COUNT
    requires forall c :: 0 <= c < i ==> piles[c] == tableau[c]
    requires forall c :: i <= c < TABLEAU_COUNT ==> piles[c] == tableau[c] + [RowCard(rest, i, c)]
    ensures forall c, r :: 0 <= r <= c < TABLEAU_COUNT && r < |piles[c]| ==> piles[c][r] == DealtCard(deck, r, c)
  {
    forall c, r | 0 <= r <= c < TABLEAU_COUNT && r < |piles[c]|
      ensures piles[c][r] == DealtCard(deck, r, c)
    {
      if c >= i && r == |tableau[c]| {
        assert |tableau[c]| == i;
        assert piles[c][r] == RowCard(rest, i, c);
      }
    }
  }

  /** Dealing row i takes the deal from rows 0..i-1 to rows 0..i. */
  lemma DealRowAdvances(deck: seq<Card>, i: nat, tableau: seq<seq<Card>>, rest: seq<Card>,
                        piles: seq<seq<Card>>, left: seq<Card>)
    requires |deck| >= DEALT && i < TABLEAU_COUNT
    requires DealtSoFar(deck, i, tableau, rest)
    requires |rest| >= TABLEAU_COUNT - i
    requires |piles| == TABLEAU_COUNT && left == rest[..|rest| - (TABLEAU_COUNT - i)]
    requires forall c :: 0 <= c < i ==> piles[c] == tableau[c]
    requires forall c :: i <= c < TABLEAU_COUNT ==> piles[c] == tableau[c] + [RowCard(rest, i, c)]
    requires InPlay(left, piles) == InPlay(rest, tableau)
    ensures DealtSoFar(deck, i + 1, piles, left)
  {
    PrefixOfPrefix(deck, |deck| - DEALT + Remaining(i), |deck| - DEALT + Remaining(i + 1));
    DealRowShape(tableau, piles, rest, i, AllFaceDown(deck));
    DealRowPositions(deck, i, tableau, rest, piles);
  }

  /** One pass of the outer loop, taking the deal from rows 0..i-1 to rows 0..i. */
  method DealNextRow(deck: seq<Card>, i: nat, tableau: seq<seq<Card>>, rest: seq<Card>)
    returns (piles: seq<seq<Card>>, left: seq<Card>)
    requires |deck| >= DEALT && i < TABLEAU_COUNT
    requires DealtSoFar(deck, i, tableau, rest)
    ensures DealtSoFar(deck, i + 1, piles, left)
  {
    piles, left := DealRow(tableau, rest, i);
    DealRowAdvances(deck, i, tableau, rest, piles, left);
  }

  /** Before the first row, every pile is empty and the whole deck is still to deal. */
  lemma DealStarts(deck: seq<Card>, tableau: seq<seq<Card>>)
    requires |deck| >= DEALT
    requires |tableau| == TABLEAU_COUNT && forall c :: 0 <= c < TABLEAU_COUNT ==> tableau[c] == []
    ensures DealtSoFar(deck, 0, tableau, deck)
  {
    EmptyPilesBag(tableau);
    RemainingAtStart();
    assert deck[..|deck| - DEALT + Remaining(0)] == deck;
  }

  /** The two nested loops of the deal: row by row, pile j gets j + 1 cards, the first card
      of each row turned face up; what is left of the deck is its undealt front, in order. */
  method DealTableau(deck: seq<Card>) returns (tableau: seq<seq<Card>>, rest: seq<Card>)
    requires |deck| >= DEALT
    ensures rest == deck[..|deck| - DEALT]
    ensures DealtRows(tableau, TABLEAU_COUNT, AllFaceDown(deck))
    ensures forall c, r :: 0 <= r <= c < TABLEAU_COUNT ==> tableau[c][r] == DealtCard(deck, r, c)
    ensures IdBag(rest) + PilesBag(tableau) == IdBag(deck)
  {
    tableau := seq(TABLEAU_COUNT, _ => []);
    rest := deck;
    DealStarts(deck, tableau);
    var i := 0;
    while i < TABLEAU_COUNT
      invariant 0 <= i <= TABLEAU_COUNT
      invariant DealtSoFar(deck, i, tableau, rest)
    {
      tableau, rest := DealNextRow(deck, i, tableau, rest);
      i := i + 1;
    }
  }

  /** The state `initializeGame` returns for an already shuffled deck: the dealt tableau,
      the undealt cards as the stock, no waste, empty foundations, the clock started. */
  method Deal(deck: seq<Card>, now: int) returns (state: GameState)
    requires |deck| >= DEALT
    ensures Shaped(state)
    ensures state.stock == deck[..|deck| - DEALT]
    ensures forall j :: 0 <= j < TABLEAU_COUNT ==> |state.tableau[j]| == j + 1 && state.tableau[j][j].faceUp
    ensures AllFaceDown(deck) ==>
      forall j, k :: 0 <= j < TABLEAU_COUNT && 0 <= k < j ==> !state.tableau[j][k].faceUp
    ensures forall j, k :: 0 <= k <= j < TABLEAU_COUNT ==> state.tableau[j][k] == DealtCard(deck, k, j)
    ensures state.waste == [] && state.foundation == [[], [], [], []]
    ensures state.moves == 0 && state.startTime == Some(now) && state.endTime == None && !state.isWon
    ensures AllIds(state) == IdBag(deck)
  {
    var tableau, stock := DealTableau(deck);
    EmptyPilesBag([[], [], [], []]);
    assert IdBag([]) == multiset{};
    state := GameState(stock, [], [[], [], [], []], tableau, 0, Some(now), None, false);
  }

  /** A game as `initializeGame` returns it for the draws `randoms` and the clock reading
      `now`: all 52 cards once; the undealt rest of the shuffled deck as a face-down stock;
      pile j of the tableau holding j + 1 cards with only its top face up, its card k being
      the one row k of the deal popped for it; no waste, empty
      foundations, no moves, the clock started and not stopped, not won. */
  predicate FreshGame(state: GameState, randoms: seq<real>, now: int)
    requires RandomDraws(randoms) && |randoms| >= DECK_SIZE - 1
  {
    && Shaped(state) && Complete(state)
    && state.stock == ShuffledDeck(randoms)[..DECK_SIZE - DEALT]
    && |state.stock| == DECK_SIZE - DEALT && AllFaceDown(state.stock)
    && (forall j :: 0 <= j < TABLEAU_COUNT ==> |state.tableau[j]| == j + 1)
    && (forall j, k :: 0 <= j < TABLEAU_COUNT && 0 <= k < |state.tableau[j]| ==>
          (state.tableau[j][k].faceUp <==> k == j))
    && (forall j, k :: 0 <= k <= j < TABLEAU_COUNT ==>
          state.tableau[j][k] == ShuffledDeck(randoms)[DECK_SIZE - 1 - DealDepth(k, j)].(faceUp := k == j))
    && state.waste == [] && state.foundation == [[], [], [], []]
    && state.moves == 0 && state.startTime == Some(now) && state.endTime == None && !state.isWon
  }

  /** `initializeGame`: a fresh deck, shuffled with the given draws, then dealt. */
  method InitializeGame(randoms: seq<real>, now: int) returns (state: GameState)
    requires RandomDraws(randoms) && |randoms| >= DECK_SIZE - 1
    ensures FreshGame(state, randoms, now)
  {
    var deck := CreateDeck();
    var shuffled := ShuffleDeck(deck, randoms);
    ShuffledDeckFacts(randoms);
    state := Deal(shuffled, now);
    forall j, k | 0 <= k <= j < TABLEAU_COUNT
      ensures state.tableau[j][k] == shuffled[DECK_SIZE - 1 - DealDepth(k, j)].(faceUp := k == j)
    {
      DealtCardOfFaceDown(shuffled, k, j);
    }
  }
}

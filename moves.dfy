/** The two state transitions of src/lib/solitaire.ts: `drawCard` (lines 100-122), which
    turns the stock's top card onto the waste or recycles the waste into the stock, and
    `moveCard` (lines 151-197), which moves a run of cards from one pile to another
    without checking that the move is legal. */
module Moves {
  import opened Optional
  import opened Cards
  import opened GameStates

  // ----- drawCard -----

  /** `[...waste].reverse().map(card => ({ ...card, faceUp: false }))`. */
  function Recycled(waste: seq<Card>): (stock: seq<Card>)
    ensures |stock| == |waste|
    ensures forall k :: 0 <= k < |waste| ==> stock[k] == waste[|waste| - 1 - k].(faceUp := false)
  {
    seq(|waste|, k requires 0 <= k < |waste| => waste[|waste| - 1 - k].(faceUp := false))
  }

  /** `drawCard`: with a non-empty stock its last card goes face up onto the waste; with an
      empty stock a non-empty waste is turned over into the stock; with both empty nothing happens. */
  function DrawCard(s: GameState): GameState
  {
    if |s.stock| == 0 then
      if |s.waste| == 0 then s
      else s.(stock := Recycled(s.waste), waste := [], moves := s.moves + 1)
    else
      var n := |s.stock| - 1;
      s.(stock := s.stock[..n], waste := s.waste + [s.stock[n].(faceUp := true)], moves := s.moves + 1)
  }

  /** Drawing never touches the foundations, the tableau or the clock, and counts a move
      exactly when something changed. */
  lemma DrawCardFrame(s: GameState)
    ensures DrawCard(s).foundation == s.foundation && DrawCard(s).tableau == s.tableau
    ensures DrawCard(s).startTime == s.startTime && DrawCard(s).endTime == s.endTime
    ensures DrawCard(s).isWon == s.isWon
    ensures DrawCard(s) == s <==> |s.stock| == 0 && |s.waste| == 0
    ensures DrawCard(s) != s ==> DrawCard(s).moves == s.moves + 1
  {
    if |s.stock| > 0 {
      assert DrawCard(s).moves != s.moves;
    } else if |s.waste| > 0 {
      assert DrawCard(s).moves != s.moves;
    }
  }

  /** Drawing and recycling only move cards between the stock and the waste. */
  lemma DrawCardConservesCards(s: GameState)
    ensures AllIds(DrawCard(s)) == AllIds(s)
    ensures Complete(s) ==> Complete(DrawCard(s))
  {
    var r := DrawCard(s);
    if |s.stock| == 0 {
      if |s.waste| > 0 {
        assert IdBag(Recycled(s.waste)) == IdBag(s.waste) by {
          assert multiset(Ids(Recycled(s.waste))) == multiset(Ids(s.waste)) by {
            ReversedIds(s.waste);
          }
        }
        assert IdBag([]) == multiset{};
      }
    } else {
      var n := |s.stock| - 1;
      assert s.stock == s.stock[..n] + [s.stock[n]];
      IdBagPush(s.stock[..n], s.stock[n]);
      IdBagPush(s.waste, s.stock[n].(faceUp := true));
    }
  }

  /** The ids of the recycled stock are the waste's ids in reverse order. */
  lemma {:induction false} ReversedIds(waste: seq<Card>)
    ensures multiset(Ids(Recycled(waste))) == multiset(Ids(waste))
    decreases |waste|
  {
    if |waste| > 0 {
      var n := |waste| - 1;
      var w := waste[..n];
      ReversedIds(w);
      assert Ids(Recycled(waste)) == [waste[n].id] + Ids(Recycled(w));
      assert Ids(waste) == Ids(w) + [waste[n].id];
    }
  }

  /** `n` successive draws. */
  function DrawMany(s: GameState, n: nat): GameState
  {
    if n == 0 then s else DrawCard(DrawMany(s, n - 1))
  }

  /** The waste built by drawing the cards `t` one by one from the end: reversed, face up. */
  function TurnedUp(t: seq<Card>): (w: seq<Card>)
    ensures |w| == |t|
    ensures forall k :: 0 <= k < |t| ==> w[k] == t[|t| - 1 - k].(faceUp := true)
  {
    seq(|t|, k requires 0 <= k < |t| => t[|t| - 1 - k].(faceUp := true))
  }

  /** After k draws from a stock of at least k cards, the stock has lost its last k cards and
      the waste has gained them in drawing order, face up. */
  lemma {:induction false} DrawManyShape(s: GameState, k: nat)
    requires k <= |s.stock|
    ensures DrawMany(s, k) == s.(stock := s.stock[..|s.stock| - k],
                                 waste := s.waste + TurnedUp(s.stock[|s.stock| - k..]),
                                 moves := s.moves + k)
  {
    if k == 0 {
      assert TurnedUp(s.stock[|s.stock|..]) == [];
      assert s.waste + [] == s.waste;
    } else {
      DrawManyShape(s, k - 1);
      var n := |s.stock|;
      var prev := DrawMany(s, k - 1);
      var top := s.stock[n - k];
      assert prev.stock == s.stock[..n - k] + [top];
      TurnedUpFront(s.stock[n - k..]);
      assert s.stock[n - k..][1..] == s.stock[n - (k - 1)..];
    }
  }

  /** Turning up a run puts its first card last. */
  lemma TurnedUpFront(t: seq<Card>)
    requires |t| > 0
    ensures TurnedUp(t) == TurnedUp(t[1..]) + [t[0].(faceUp := true)]
  {
  }

  /** Drawing a whole face-down stock onto an empty waste and then recycling restores the
      stock exactly, in its original order. */
  lemma StockCycleRestores(s: GameState)
    requires s.waste == [] && |s.stock| > 0 && AllFaceDown(s.stock)
    ensures DrawCard(DrawMany(s, |s.stock|)) == s.(moves := s.moves + |s.stock| + 1)
  {
    var n := |s.stock|;
    var drawn := DrawMany(s, n);
    DrawManyShape(s, n);
    assert s.stock[n - n..] == s.stock && s.stock[..n - n] == [];
    assert drawn.stock == [] && drawn.waste == TurnedUp(s.stock) && drawn.moves == s.moves + n;
    RecycleUndoesTurnUp(s.stock);
    assert DrawCard(drawn) == drawn.(stock := s.stock, waste := [], moves := s.moves + n + 1);
  }

  /** Recycling a waste that was turned up from face-down cards gives those cards back. */
  lemma RecycleUndoesTurnUp(t: seq<Card>)
    requires AllFaceDown(t)
    ensures Recycled(TurnedUp(t)) == t
  {
    var r := Recycled(TurnedUp(t));
    forall k | 0 <= k < |t|
      ensures r[k] == t[k]
    {
      assert TurnedUp(t)[|t| - 1 - k] == t[k].(faceUp := true);
    }
  }

  // ----- moveCard -----

  /** `pile.findIndex(c => c.id === id)`: the first position holding the id, or -1. */
  function IndexOfId(pile: seq<Card>, id: string): (k: int)
    ensures -1 <= k < |pile|
    ensures k >= 0 ==> pile[k].id == id && forall m :: 0 <= m < k ==> pile[m].id != id
    ensures k == -1 ==> forall m :: 0 <= m < |pile| ==> pile[m].id != id
    decreases |pile|
  {
    if |pile| == 0 then -1
    else if pile[0].id == id then 0
    else
      var k := IndexOfId(pile[1..], id);
      if k == -1 then -1 else k + 1
  }

  /** `findIndex` as the loop it runs. */
  method FindIndex(pile: seq<Card>, id: string) returns (k: int)
    ensures k == IndexOfId(pile, id)
  {
    k := 0;
    while k < |pile|
      invariant 0 <= k <= |pile|
      invariant forall m :: 0 <= m < k ==> pile[m].id != id
    {
      if pile[k].id == id {
        IndexOfIdUnique(pile, id, k);
        return;
      }
      k := k + 1;
    }
    IndexOfIdUnique(pile, id, -1);
    k := -1;
  }

  /** The contract of `IndexOfId` determines it. */
  lemma IndexOfIdUnique(pile: seq<Card>, id: string, k: int)
    requires -1 <= k < |pile|
    requires k >= 0 ==> pile[k].id == id && forall m :: 0 <= m < k ==> pile[m].id != id
    requires k == -1 ==> forall m :: 0 <= m < |pile| ==> pile[m].id != id
    ensures k == IndexOfId(pile, id)
  {
  }

  /** What `pile.splice(start)` leaves in the pile: JavaScript counts a negative start from
      the end, so `splice(-1)` removes the last card. */
  function Spliced(pile: seq<Card>, start: int): (kept: seq<Card>)
    ensures |kept| <= |pile| && kept == pile[..|kept|]
    ensures start >= 0 ==> |kept| == if start < |pile| then start else |pile|
    ensures start < 0 ==> |kept| == if |pile| + start > 0 then |pile| + start else 0
  {
    var cut := if start < 0 then (if |pile| + start > 0 then |pile| + start else 0)
               else if start < |pile| then start else |pile|;
    pile[..cut]
  }

  /** `pile.pop()` on a copy: drops the last card, and leaves an empty pile as it is. */
  function Popped(pile: seq<Card>): (kept: seq<Card>)
    ensures |pile| > 0 ==> kept == pile[..|pile| - 1]
    ensures |pile| == 0 ==> kept == []
  {
    if |pile| == 0 then pile else pile[..|pile| - 1]
  }

  /** Turns the pile's top card face up when it is face down. */
  function Revealed(pile: seq<Card>): (r: seq<Card>)
    ensures |r| == |pile|
    ensures |pile| > 0 ==> r[..|r| - 1] == pile[..|pile| - 1]
    ensures |pile| > 0 ==> r[|r| - 1] == pile[|pile| - 1].(faceUp := true)
    ensures |pile| == 0 ==> r == []
  {
    var n := |pile|;
    if n > 0 && !pile[n - 1].faceUp then pile[n - 1 := pile[n - 1].(faceUp := true)] else pile
  }

  /** The source pile after the cards leave it (lines 169-181). */
  function WithoutCards(s: GameState, cards: seq<Card>, source: PileRef): GameState
    requires |cards| > 0 && InState(s, source)
  {
    match source.kind
    case Waste => s.(waste := Popped(s.waste))
    case Foundation => s.(foundation := s.foundation[source.index := Popped(s.foundation[source.index])])
    case Tableau =>
      var pile := s.tableau[source.index];
      s.(tableau := s.tableau[source.index := Revealed(Spliced(pile, IndexOfId(pile, cards[0].id)))])
    case Stock => s
  }

  /** The destination after the cards arrive (lines 184-188): a foundation takes only the
      first card, a tableau pile takes them all, the stock and the waste take nothing. */
  function WithCards(s: GameState, cards: seq<Card>, destination: PileRef): GameState
    requires |cards| > 0 && InState(s, destination)
  {
    match destination.kind
    case Foundation => s.(foundation := s.foundation[destination.index := s.foundation[destination.index] + [cards[0]]])
    case Tableau => s.(tableau := s.tableau[destination.index := s.tableau[destination.index] + cards])
    case _ => s
  }

  /** `moveCard(state, cards, source, destination)` with `Date.now()` as `now`. */
  function Moved(s: GameState, cards: seq<Card>, source: PileRef, destination: PileRef, now: int): GameState
    requires InState(s, source) && InState(s, destination)
  {
    if |cards| == 0 then s
    else
      var placed := WithCards(WithoutCards(s, cards, source), cards, destination);
      StampWin(placed.(moves := s.moves + 1), now)
  }

  /** The first half of `moveCard` on the copied piles: pops the waste or a foundation, or
      splices the run off a tableau pile and turns its new top face up. */
  method RemoveCards(state: GameState, cards: seq<Card>, source: PileRef) returns (r: GameState)
    requires |cards| > 0 && InState(state, source)
    ensures r == WithoutCards(state, cards, source)
  {
    r := state;
    if source.kind == Waste {
      if |state.waste| > 0 {
        r := state.(waste := state.waste[..|state.waste| - 1]);
      }
    } else if source.kind == Foundation {
      var pile := state.foundation[source.index];
      if |pile| > 0 {
        r := state.(foundation := state.foundation[source.index := pile[..|pile| - 1]]);
      }
    } else if source.kind == Tableau {
      var pile := state.tableau[source.index];
      var sourceIndex := FindIndex(pile, cards[0].id);
      pile := Spliced(pile, sourceIndex);
      if |pile| > 0 && !pile[|pile| - 1].faceUp {
        pile := pile[|pile| - 1 := pile[|pile| - 1].(faceUp := true)];
      }
      r := state.(tableau := state.tableau[source.index := pile]);
    }
  }

  /** The second half: a foundation destination takes the first card, a tableau destination
      the whole run. */
  method PlaceCards(state: GameState, cards: seq<Card>, destination: PileRef) returns (r: GameState)
    requires |cards| > 0 && InState(state, destination)
    ensures r == WithCards(state, cards, destination)
  {
    r := state;
    if destination.kind == Foundation {
      var pile := state.foundation[destination.index];
      r := state.(foundation := state.foundation[destination.index := pile + [cards[0]]]);
    } else if destination.kind == Tableau {
      var pile := state.tableau[destination.index];
      r := state.(tableau := state.tableau[destination.index := pile + cards]);
    }
  }

  /** `moveCard`: copies the piles, takes the cards off the source, puts them on the
      destination, counts the move and recomputes the win. */
  method MoveCard(state: GameState, cards: seq<Card>, source: PileRef, destination: PileRef, now: int)
    returns (r: GameState)
    requires InState(state, source) && InState(state, destination)
    ensures r == Moved(state, cards, source, destination, now)
  {
    if |cards| == 0 {
      return state;
    }
    var removed := RemoveCards(state, cards, source);
    r := PlaceCards(removed, cards, destination);
    r := r.(moves := state.moves + 1);
    var won := CheckWinCondition(r);
    r := r.(isWon := won);
    if won && Falsy(r.endTime) {
      r := r.(endTime := Some(now));
    }
  }

  // ----- what a move promises -----

  /** Same pile. */
  predicate SamePile(a: PileRef, b: PileRef)
  {
    a.kind == b.kind && (a.kind == Foundation || a.kind == Tableau ==> a.index == b.index)
  }

  /** A pile that is neither the source nor the destination of a move. */
  predicate Untouched(p: PileRef, source: PileRef, destination: PileRef)
  {
    !SamePile(p, source) && !SamePile(p, destination)
  }

  /** A move counts once, never touches the stock, leaves every pile other than the source
      and the destination alone, and keeps the win flag in step with the foundations. */
  lemma MovedFrame(s: GameState, cards: seq<Card>, source: PileRef, destination: PileRef, now: int)
    requires InState(s, source) && InState(s, destination) && |cards| > 0
    ensures var r := Moved(s, cards, source, destination, now);
      && r.moves == s.moves + 1
      && r.stock == s.stock
      && r.startTime == s.startTime
      && |r.foundation| == |s.foundation| && |r.tableau| == |s.tableau|
      && (source.kind != Waste ==> r.waste == s.waste)
      && (forall i :: 0 <= i < |s.foundation| && Untouched(PileRef(Foundation, i), source, destination) ==>
            r.foundation[i] == s.foundation[i])
      && (forall i :: 0 <= i < |s.tableau| && Untouched(PileRef(Tableau, i), source, destination) ==>
            r.tableau[i] == s.tableau[i])
      && r.isWon == CheckWinCondition(r)
  {
  }

  /** A waste or foundation source loses exactly its last card; a foundation destination gains
      only the first card; a tableau destination gains all of them in order. */
  lemma MovedEnds(s: GameState, cards: seq<Card>, source: PileRef, destination: PileRef, now: int)
    requires InState(s, source) && InState(s, destination) && |cards| > 0
    requires !SamePile(source, destination)
    ensures var r := Moved(s, cards, source, destination, now);
      && (source.kind == Waste ==> r.waste == Popped(s.waste))
      && (source.kind == Foundation ==>
            r.foundation[source.index] == Popped(s.foundation[source.index]))
      && (destination.kind == Foundation ==>
            r.foundation[destination.index] == s.foundation[destination.index] + [cards[0]])
      && (destination.kind == Tableau ==>
            r.tableau[destination.index] == s.tableau[destination.index] + cards)
  {
  }

  /** A tableau source is cut at the first card with the moved card's id, and what remains
      ends in a face-up card. */
  lemma MovedCutsTableau(s: GameState, cards: seq<Card>, source: PileRef, destination: PileRef, now: int)
    requires InState(s, source) && InState(s, destination) && |cards| > 0
    requires source.kind == Tableau && !SamePile(source, destination)
    requires IndexOfId(s.tableau[source.index], cards[0].id) >= 0
    ensures var r := Moved(s, cards, source, destination, now);
      var pile := s.tableau[source.index];
      var k := IndexOfId(pile, cards[0].id);
      && |r.tableau[source.index]| == k
      && (k > 0 ==> r.tableau[source.index][..k - 1] == pile[..k - 1])
      && (k > 0 ==> r.tableau[source.index][k - 1] == pile[k - 1].(faceUp := true))
  {
  }

  /** The `splice(-1)` case: when the moved card is not in the tableau source at all, the
      source still loses its top card. */
  lemma MovedAbsentCardDropsTop(s: GameState, cards: seq<Card>, source: PileRef, destination: PileRef, now: int)
    requires InState(s, source) && InState(s, destination) && |cards| > 0
    requires source.kind == Tableau && !SamePile(source, destination)
    requires |s.tableau[source.index]| > 0
    requires forall m :: 0 <= m < |s.tableau[source.index]| ==> s.tableau[source.index][m].id != cards[0].id
    ensures |Moved(s, cards, source, destination, now).tableau[source.index]| == |s.tableau[source.index]| - 1
  {
    assert IndexOfId(s.tableau[source.index], cards[0].id) == -1;
  }

  /** The source side of a correct call: the top card of the waste or of a foundation, or
      the run of a tableau pile from the first card with that id. */
  predicate ProperSource(s: GameState, cards: seq<Card>, source: PileRef)
  {
    && InState(s, source) && |cards| > 0
    && match source.kind
       case Waste => |s.waste| > 0 && Ids(cards) == [s.waste[|s.waste| - 1].id]
       case Foundation =>
         var pile := s.foundation[source.index];
         |pile| > 0 && Ids(cards) == [pile[|pile| - 1].id]
       case Tableau =>
         var pile := s.tableau[source.index];
         var k := IndexOfId(pile, cards[0].id);
         k >= 0 && Ids(cards) == Ids(pile[k..])
       case Stock => false
  }

  /** The destination side of a correct call: one card onto a foundation, or any run onto a
      tableau pile. */
  predicate ProperDestination(s: GameState, cards: seq<Card>, destination: PileRef)
  {
    && InState(s, destination) && |cards| > 0
    && (destination.kind == Foundation ==> |cards| == 1)
    && (destination.kind == Foundation || destination.kind == Tableau)
  }

  predicate ProperMove(s: GameState, cards: seq<Card>, source: PileRef, destination: PileRef)
  {
    ProperSource(s, cards, source) && ProperDestination(s, cards, destination)
  }

  /** In a complete state the top card of a tableau pile is the only card with its id there,
      so taking it alone is a correct tableau source. */
  lemma TopIsProperSource(s: GameState, i: nat, card: Card)
    requires Complete(s) && i < |s.tableau| && |s.tableau[i]| > 0
    requires card.id == s.tableau[i][|s.tableau[i]| - 1].id
    ensures ProperSource(s, [card], PileRef(Tableau, i))
  {
    var pile := s.tableau[i];
    var n := |pile| - 1;
    assert pile in s.tableau;
    CompletePileDistinct(s, pile);
    var k := IndexOfId(pile, card.id);
    if k < n {
      BagAtMostOnceDistinct(pile, k, n);
    }
    assert pile[k..] == [pile[n]];
  }

  lemma PoppedBag(pile: seq<Card>)
    requires |pile| > 0
    ensures IdBag(Popped(pile)) + multiset{pile[|pile| - 1].id} == IdBag(pile) + multiset{}
  {
    var n := |pile| - 1;
    assert pile == pile[..n] + [pile[n]];
    IdBagPush(pile[..n], pile[n]);
  }

  /** Cutting a pile at k and turning up the new top loses exactly the cards from k on. */
  lemma CutBag(pile: seq<Card>, k: nat)
    requires k <= |pile|
    ensures IdBag(Revealed(pile[..k])) + IdBag(pile[k..]) == IdBag(pile) + multiset{}
  {
    IdBagSplit(pile, k);
    IdsOfSameIds(Revealed(pile[..k]), pile[..k]);
  }

  /** The cards that leave the source are exactly the ones passed. */
  lemma WithoutCardsBag(s: GameState, cards: seq<Card>, source: PileRef)
    requires ProperSource(s, cards, source)
    ensures AllIds(WithoutCards(s, cards, source)) + IdBag(cards) == AllIds(s) + multiset{}
  {
    match source.kind
    case Waste =>
      PoppedBag(s.waste);
      assert IdBag(cards) == multiset{s.waste[|s.waste| - 1].id};
      AllIdsWithWaste(s, Popped(s.waste), multiset{}, IdBag(cards));
    case Foundation =>
      var i := source.index;
      var pile := s.foundation[i];
      PoppedBag(pile);
      assert IdBag(cards) == multiset{pile[|pile| - 1].id};
      PilesBagExchange(s.foundation, i, Popped(pile), multiset{}, IdBag(cards));
      AllIdsWithFoundation(s, s.foundation[i := Popped(pile)], multiset{}, IdBag(cards));
    case Tableau =>
      var i := source.index;
      var pile := s.tableau[i];
      var k := IndexOfId(pile, cards[0].id);
      assert Spliced(pile, k) == pile[..k];
      assert IdBag(cards) == IdBag(pile[k..]);
      CutBag(pile, k);
      PilesBagExchange(s.tableau, i, Revealed(pile[..k]), multiset{}, IdBag(cards));
      AllIdsWithTableau(s, s.tableau[i := Revealed(pile[..k])], multiset{}, IdBag(cards));
  }

  /** The cards that arrive at the destination are exactly the ones passed. */
  lemma WithCardsBag(s: GameState, cards: seq<Card>, destination: PileRef)
    requires ProperDestination(s, cards, destination)
    ensures AllIds(WithCards(s, cards, destination)) + multiset{} == AllIds(s) + IdBag(cards)
  {
    match destination.kind
    case Foundation =>
      var i := destination.index;
      assert cards == [cards[0]];
      IdBagPush(s.foundation[i], cards[0]);
      IdBagPush([], cards[0]);
      PilesBagExchange(s.foundation, i, s.foundation[i] + [cards[0]], IdBag(cards), multiset{});
      AllIdsWithFoundation(s, s.foundation[i := s.foundation[i] + [cards[0]]], IdBag(cards), multiset{});
    case Tableau =>
      var i := destination.index;
      IdBagConcat(s.tableau[i], cards);
      PilesBagExchange(s.tableau, i, s.tableau[i] + cards, IdBag(cards), multiset{});
      AllIdsWithTableau(s, s.tableau[i := s.tableau[i] + cards], IdBag(cards), multiset{});
  }

  /** A correctly called move neither loses nor duplicates a card. */
  lemma MovedConservesCards(s: GameState, cards: seq<Card>, source: PileRef, destination: PileRef, now: int)
    requires ProperMove(s, cards, source, destination)
    ensures AllIds(Moved(s, cards, source, destination, now)) == AllIds(s)
    ensures Complete(s) ==> Complete(Moved(s, cards, source, destination, now))
  {
    WithoutCardsBag(s, cards, source);
    var removed := WithoutCards(s, cards, source);
    assert ProperDestination(removed, cards, destination);
    WithCardsBag(removed, cards, destination);
    var placed := WithCards(removed, cards, destination);
    StampWinKeepsIds(placed.(moves := s.moves + 1), now);
    BagsBalance(AllIds(s), AllIds(removed), IdBag(cards), AllIds(placed));
  }
}

/** The board controller of src/components/game/GameBoard.tsx: the current game, the undo and
    redo snapshots, and the drag session, updated by one handler per user action. The pure
    functions before the class say what each committing handler commits; the class methods
    are the handlers themselves. */
module Board {
  import opened Optional
  import opened Cards
  import opened Shuffle
  import opened GameStates
  import opened Rules
  import opened Deal
  import opened Moves
  import opened AutoFinish
  import opened PileView
  import opened History

  // ----- what a click commits (lines 130-174) -----

  /** The click draws: the stock's top card was clicked, or the id-less placeholder of an empty
      stock while the waste still holds cards (a recycle). */
  predicate DrawClick(s: GameState, c: Click)
  {
    || (|s.stock| > 0 && c.OnCard? && s.stock[|s.stock| - 1].id == c.card.id)
    || (|s.stock| == 0 && |s.waste| > 0 && NoId(c))
  }

  /** The first tableau pile at index `from` or later whose top card has the id, or the number
      of piles. */
  function TableauTopWithId(s: GameState, id: string, from: nat): (j: nat)
    requires from <= |s.tableau|
    ensures from <= j <= |s.tableau|
    ensures j < |s.tableau| ==> |s.tableau[j]| > 0 && s.tableau[j][|s.tableau[j]| - 1].id == id
    ensures forall m :: from <= m < j ==> !(|s.tableau[m]| > 0 && s.tableau[m][|s.tableau[m]| - 1].id == id)
    decreases |s.tableau| - from
  {
    if from == |s.tableau| then from
    else if |s.tableau[from]| > 0 && s.tableau[from][|s.tableau[from]| - 1].id == id then from
    else TableauTopWithId(s, id, from + 1)
  }

  /** The pile a clicked card leaves: the waste when the card is its top, otherwise the first
      tableau pile it tops. */
  function ClickSource(s: GameState, card: Card): (src: Option<PileRef>)
    ensures src.Some? ==> InState(s, src.value) && (src.value.kind == Waste || src.value.kind == Tableau)
  {
    if |s.waste| > 0 && s.waste[|s.waste| - 1].id == card.id then Some(PileRef(Waste, 0))
    else
      var j := TableauTopWithId(s, card.id, 0);
      if j < |s.tableau| then Some(PileRef(Tableau, j)) else None
  }

  /** The move-to-foundation a face-up card's click makes: to the first foundation that accepts
      it, from the pile it tops. */
  function FoundationClick(s: GameState, card: Card, now: int): Option<GameState>
  {
    var i := AcceptingFoundation(s, card, 0);
    var src := ClickSource(s, card);
    if i < |s.foundation| && src.Some? then Some(Moved(s, [card], src.value, PileRef(Foundation, i), now))
    else None
  }

  /** `handleCardClick`: the state the click commits, or None when it changes nothing. */
  function ClickOutcome(s: GameState, c: Click, now: int): Option<GameState>
  {
    if DrawClick(s, c) then Some(DrawCard(s))
    else if ClickFaceUp(c) then FoundationClick(s, c.card, now)
    else None
  }

  /** Some foundation accepts the card. */
  predicate SomeFoundationAccepts(s: GameState, card: Card)
  {
    exists i :: 0 <= i < |s.foundation| && CanPlaceOnFoundation(card, TopOf(s.foundation[i]))
  }

  /** The card's id is that of the waste's top or of some tableau pile's top. */
  predicate TopsAPile(s: GameState, card: Card)
  {
    || (|s.waste| > 0 && s.waste[|s.waste| - 1].id == card.id)
    || exists j :: 0 <= j < |s.tableau| && |s.tableau[j]| > 0 && s.tableau[j][|s.tableau[j]| - 1].id == card.id
  }

  /** A click commits exactly when it draws, or when it is on a face-up card that tops the waste
      or a tableau pile and that some foundation accepts; anything else changes nothing. */
  lemma ClickCommitsIff(s: GameState, c: Click, now: int)
    ensures ClickOutcome(s, c, now).Some? <==>
      DrawClick(s, c) || (ClickFaceUp(c) && SomeFoundationAccepts(s, c.card) && TopsAPile(s, c.card))
  {
    if !DrawClick(s, c) && ClickFaceUp(c) {
      var card := c.card;
      var i := AcceptingFoundation(s, card, 0);
      if SomeFoundationAccepts(s, card) {
        var i' :| 0 <= i' < |s.foundation| && CanPlaceOnFoundation(card, TopOf(s.foundation[i']));
        assert i <= i';
      }
      if TopsAPile(s, card) && !(|s.waste| > 0 && s.waste[|s.waste| - 1].id == card.id) {
        var j' :| 0 <= j' < |s.tableau| && |s.tableau[j']| > 0 && s.tableau[j'][|s.tableau[j']| - 1].id == card.id;
        assert TableauTopWithId(s, card.id, 0) <= j';
      }
    }
  }

  /** The stock pile's clicks: its top card, or the placeholder once it is empty, always draw
      or recycle while there is anything to draw, and change nothing otherwise. */
  lemma StockClickDraws(s: GameState, c: Click, now: int)
    requires CanClick(Stock, s.stock, c)
    ensures |s.stock| > 0 || |s.waste| > 0 ==> ClickOutcome(s, c, now) == Some(DrawCard(s))
    ensures |s.stock| == 0 && |s.waste| == 0 ==> ClickOutcome(s, c, now).None?
  {
  }

  /** A move-to-foundation click takes the card to the first foundation that accepts it, and
      from the waste when the card tops it. */
  lemma FoundationClickMoves(s: GameState, card: Card, now: int)
    requires FoundationClick(s, card, now).Some?
    ensures var r := FoundationClick(s, card, now).value;
      exists i :: 0 <= i < |s.foundation|
        && CanPlaceOnFoundation(card, TopOf(s.foundation[i]))
        && (forall m :: 0 <= m < i ==> !CanPlaceOnFoundation(card, TopOf(s.foundation[m])))
        && r.foundation == s.foundation[i := s.foundation[i] + [card]]
    ensures var r := FoundationClick(s, card, now).value;
      r.stock == s.stock && r.moves == s.moves + 1
    ensures var r := FoundationClick(s, card, now).value;
      |s.waste| > 0 && s.waste[|s.waste| - 1].id == card.id ==> r.waste == Popped(s.waste) && r.tableau == s.tableau
  {
    var i := AcceptingFoundation(s, card, 0);
    var r := FoundationClick(s, card, now).value;
    assert r.foundation == s.foundation[i := s.foundation[i] + [card]];
  }

  /** In a complete state a committed click neither loses nor duplicates a card. */
  lemma ClickKeepsCards(s: GameState, c: Click, now: int)
    requires Complete(s) && ClickOutcome(s, c, now).Some?
    ensures Complete(ClickOutcome(s, c, now).value)
  {
    if DrawClick(s, c) {
      DrawCardConservesCards(s);
    } else {
      FoundationClickKeepsCards(s, c.card, now);
    }
  }

  lemma FoundationClickKeepsCards(s: GameState, card: Card, now: int)
    requires Complete(s) && FoundationClick(s, card, now).Some?
    ensures Complete(FoundationClick(s, card, now).value)
  {
    var src := ClickSource(s, card).value;
    var i := AcceptingFoundation(s, card, 0);
    ClickSourceIsProper(s, card);
    assert ProperDestination(s, [card], PileRef(Foundation, i));
    MovedConservesCards(s, [card], src, PileRef(Foundation, i), now);
  }

  /** In a complete state the pile a clicked card leaves gives up exactly that card. */
  lemma ClickSourceIsProper(s: GameState, card: Card)
    requires Complete(s) && ClickSource(s, card).Some?
    ensures ProperSource(s, [card], ClickSource(s, card).value)
  {
    if !(|s.waste| > 0 && s.waste[|s.waste| - 1].id == card.id) {
      var j := TableauTopWithId(s, card.id, 0);
      TopIsProperSource(s, j, card);
    }
  }

  lemma ClickKeepsShape(s: GameState, c: Click, now: int)
    requires Shaped(s) && ClickOutcome(s, c, now).Some?
    ensures Shaped(ClickOutcome(s, c, now).value)
  {
    if DrawClick(s, c) {
      DrawCardFrame(s);
    } else {
      var card := c.card;
      MovedFrame(s, [card], ClickSource(s, card).value, PileRef(Foundation, AcceptingFoundation(s, card, 0)), now);
    }
  }

  // ----- what a release commits (lines 208-252) -----

  /** The validator at release: a foundation takes one card the foundation rule accepts, a
      tableau pile a run whose first card the tableau rule accepts; nothing else is a target. */
  predicate DropAccepted(s: GameState, cards: seq<Card>, target: PileRef)
    requires |cards| > 0 && InState(s, target)
  {
    match target.kind
    case Foundation => |cards| == 1 && CanPlaceOnFoundation(cards[0], TopOf(s.foundation[target.index]))
    case Tableau => CanPlaceOnTableau(cards[0], TopOf(s.tableau[target.index]))
    case _ => false
  }

  /** `handleMouseUp` during a drag: the state it commits, or None. */
  function DropOutcome(s: GameState, cards: seq<Card>, source: PileRef, target: Option<PileRef>, now: int): Option<GameState>
    requires |cards| > 0 && InState(s, source)
    requires target.Some? ==> InState(s, target.value)
  {
    if target.Some? && DropAccepted(s, cards, target.value) then Some(Moved(s, cards, source, target.value, now))
    else None
  }

  /** A committed drop onto a foundation adds the one card the rule accepted, so a foundation
      run stays a run. */
  lemma DropKeepsFoundationRun(s: GameState, cards: seq<Card>, source: PileRef, target: PileRef, now: int)
    requires |cards| > 0 && InState(s, source) && InState(s, target)
    requires target.kind == Foundation && !SamePile(source, target)
    requires FoundationRun(s.foundation[target.index])
    requires DropOutcome(s, cards, source, Some(target), now).Some?
    ensures var r := DropOutcome(s, cards, source, Some(target), now).value;
      && r.foundation[target.index] == s.foundation[target.index] + cards
      && FoundationRun(r.foundation[target.index])
  {
    MovedEnds(s, cards, source, target, now);
    assert cards == [cards[0]];
    FoundationRuleKeepsRun(s.foundation[target.index], cards[0]);
  }

  /** A committed drop of an alternating run onto a tableau pile keeps the pile's face-up part
      alternating, and only a King reaches an empty pile. */
  lemma DropKeepsTableauRun(s: GameState, cards: seq<Card>, source: PileRef, target: PileRef, from: nat, now: int)
    requires |cards| > 0 && InState(s, source) && InState(s, target)
    requires target.kind == Tableau && !SamePile(source, target)
    requires from <= |s.tableau[target.index]| && Alternating(s.tableau[target.index][from..])
    requires Alternating(cards)
    requires DropOutcome(s, cards, source, Some(target), now).Some?
    ensures var r := DropOutcome(s, cards, source, Some(target), now).value;
      && r.tableau[target.index] == s.tableau[target.index] + cards
      && Alternating(r.tableau[target.index][from..])
      && (|s.tableau[target.index]| == 0 ==> cards[0].value == King)
  {
    MovedEnds(s, cards, source, target, now);
    TableauRuleKeepsRun(s.tableau[target.index], from, cards);
  }

  /** Dropping what a drag picked up from the current state neither loses nor duplicates a card. */
  lemma DropKeepsCards(s: GameState, cards: seq<Card>, source: PileRef, target: Option<PileRef>, now: int)
    requires Complete(s) && ProperSource(s, cards, source)
    requires target.Some? ==> InState(s, target.value)
    requires DropOutcome(s, cards, source, target, now).Some?
    ensures Complete(DropOutcome(s, cards, source, target, now).value)
  {
    MovedConservesCards(s, cards, source, target.value, now);
  }

  lemma DropKeepsShape(s: GameState, cards: seq<Card>, source: PileRef, target: Option<PileRef>, now: int)
    requires Shaped(s) && |cards| > 0 && InState(s, source)
    requires target.Some? ==> InState(s, target.value)
    requires DropOutcome(s, cards, source, target, now).Some?
    ensures Shaped(DropOutcome(s, cards, source, target, now).value)
  {
    MovedFrame(s, cards, source, target.value, now);
  }

  // ----- hover (lines 254-262) -----

  /** The board hands `onDropTargetHover` to the foundation and tableau piles only
      (lines 311-358); the stock and the waste have no hover handler. */
  predicate HoverWired(kind: PileType)
  {
    kind == Foundation || kind == Tableau
  }

  /** The reports the board receives when the cursor enters or leaves pile `r`. */
  function Entered(r: PileRef): Option<Hover>
  {
    MouseEnter(r.kind, r.index, HoverWired(r.kind))
  }

  function Left(r: PileRef): Option<Hover>
  {
    MouseLeave(r.kind, r.index, HoverWired(r.kind))
  }

  /** `handleDropTargetHover` applied to a report, if the pile sends one: ignored without a
      drag; entering a pile targets it; leaving a pile clears the target only when that pile
      is the target. */
  function Hovered(target: Option<PileRef>, dragging: bool, report: Option<Hover>): Option<PileRef>
  {
    if report.None? || !dragging then target
    else
      var h := report.value;
      if h.isHovering then Some(PileRef(h.kind, h.index))
      else if target == Some(PileRef(h.kind, h.index)) then None
      else target
  }

  /** During a drag the target follows the cursor over the foundations and the tableau,
      whichever order the leave of the old pile and the enter of the new one arrive in, and
      leaving the target pile clears it; the stock and the waste never change it. */
  lemma HoverFollowsCursor(target: Option<PileRef>, a: PileRef, b: PileRef)
    ensures HoverWired(b.kind) ==> Hovered(Hovered(target, true, Left(a)), true, Entered(b)) == Some(b)
    ensures HoverWired(b.kind) && a != b ==>
      Hovered(Hovered(target, true, Entered(b)), true, Left(a)) == Some(b)
    ensures HoverWired(a.kind) ==> Hovered(Hovered(target, true, Entered(a)), true, Left(a)).None?
    ensures !HoverWired(b.kind) ==> Hovered(target, true, Entered(b)) == target && Hovered(target, true, Left(b)) == target
    ensures Hovered(target, false, Entered(b)) == target
  {
  }

  /** Whatever pile reports, the drop target is only ever a foundation or a tableau pile. */
  lemma TargetNeverStockOrWaste(target: Option<PileRef>, dragging: bool, r: PileRef, entering: bool)
    requires target.Some? ==> HoverWired(target.value.kind)
    ensures var t := Hovered(target, dragging, if entering then Entered(r) else Left(r));
      t.Some? ==> HoverWired(t.value.kind)
  {
  }

  // ----- auto-complete (lines 264-267) -----

  lemma AutoCompleteKeepsShape(s: GameState, now: int)
    requires Shaped(s)
    ensures Shaped(AutoCompleted(s, now))
  {
    AutoRunExtendsFoundations(s, now);
  }

  /** Every game in `ps` has the board's piles and holds the 52 cards once. */
  predicate SoundSnapshots(ps: seq<GameState>)
  {
    forall k :: 0 <= k < |ps| ==> Shaped(ps[k]) && Complete(ps[k])
  }

  lemma SnapshotsPop(ps: seq<GameState>)
    requires |ps| > 0 && SoundSnapshots(ps)
    ensures SoundSnapshots(ps[..|ps| - 1]) && Shaped(ps[|ps| - 1]) && Complete(ps[|ps| - 1])
  {
  }

  lemma SnapshotsPush(ps: seq<GameState>, s: GameState)
    requires SoundSnapshots(ps) && Shaped(s) && Complete(s)
    ensures SoundSnapshots(ps + [s])
  {
  }

  lemma SnapshotsCons(s: GameState, ps: seq<GameState>)
    requires SoundSnapshots(ps) && Shaped(s) && Complete(s)
    ensures SoundSnapshots([s] + ps)
  {
  }

  lemma SnapshotsTail(ps: seq<GameState>)
    requires |ps| > 0 && SoundSnapshots(ps)
    ensures SoundSnapshots(ps[1..]) && Shaped(ps[0]) && Complete(ps[0])
  {
  }

  /** Commit an outcome, if there is one. */
  function Committing(t: Timeline<GameState>, outcome: Option<GameState>): Timeline<GameState>
  {
    if outcome.Some? then Committed(t, outcome.value) else t
  }

  /** The cursor position of a drag. */
  datatype Point = Point(x: int, y: int)

  class GameBoard {
    var gameState: GameState
    var history: seq<GameState>
    var future: seq<GameState>
    var draggedCards: Option<seq<Card>>
    var dragSource: Option<PileRef>
    var dragPosition: Point
    var dragOffset: Point
    var dropTarget: Option<PileRef>

    /** The undo/redo snapshots around the current game. */
    function Snapshots(): Timeline<GameState>
      reads this
    {
      Timeline(history, gameState, future)
    }

    /** Every snapshot has four foundations and seven tableau piles and holds the 52 cards once;
        a drag holds exactly the cards its source pile gives up; the session's piles exist on
        the board, and the drop target is a pile with a hover handler. */
    predicate Valid()
      reads this
    {
      && Shaped(gameState) && Complete(gameState)
      && SoundSnapshots(history) && SoundSnapshots(future)
      && (draggedCards.Some? ==> |draggedCards.value| > 0)
      && (dragSource.Some? ==> ValidRef(dragSource.value))
      && (draggedCards.Some? && dragSource.Some? ==> ProperSource(gameState, draggedCards.value, dragSource.value))
      && (dropTarget.Some? ==> ValidRef(dropTarget.value) && HoverWired(dropTarget.value.kind))
    }

    /** No drag session. */
    predicate Idle()
      reads this
    {
      draggedCards.None? && dragSource.None? && dropTarget.None?
    }

    /** The board as first rendered: a freshly dealt game, no snapshots, no drag. */
    constructor(randoms: seq<real>, now: int)
      requires RandomDraws(randoms) && |randoms| >= DECK_SIZE - 1
      ensures Valid() && Idle() && history == [] && future == []
      ensures FreshGame(gameState, randoms, now)
    {
      var initialState := InitializeGame(randoms, now);
      gameState := initialState;
      history, future := [], [];
      draggedCards, dragSource, dropTarget := None, None, None;
      dragPosition, dragOffset := Point(0, 0), Point(0, 0);
    }

    /** `startNewGame`: a freshly dealt game, no snapshots and no drag session. */
    method StartNewGame(randoms: seq<real>, now: int)
      requires Valid()
      requires RandomDraws(randoms) && |randoms| >= DECK_SIZE - 1
      modifies this
      ensures Valid() && Idle() && history == [] && future == []
      ensures FreshGame(gameState, randoms, now)
      ensures dragPosition == old(dragPosition) && dragOffset == old(dragOffset)
    {
      var initialState := InitializeGame(randoms, now);
      gameState := initialState;
      history, future := [], [];
      draggedCards, dragSource, dropTarget := None, None, None;
    }

    /** `saveToHistory`: the current game goes to the end of the history and the redo list is
        dropped. */
    method SaveToHistory()
      requires Valid()
      modifies this
      ensures Valid()
      ensures history == old(history) + [old(gameState)] && future == [] && gameState == old(gameState)
      ensures draggedCards == old(draggedCards) && dragSource == old(dragSource) && dropTarget == old(dropTarget)
      ensures dragPosition == old(dragPosition) && dragOffset == old(dragOffset)
    {
      SnapshotsPush(history, gameState);
      history := history + [gameState];
      future := [];
    }

    /** `undo`. */
    method Undo()
      requires Valid() && draggedCards.None?
      modifies this
      ensures Valid()
      ensures Snapshots() == Undone(old(Snapshots()))
      ensures draggedCards == old(draggedCards) && dragSource == old(dragSource) && dropTarget == old(dropTarget)
      ensures dragPosition == old(dragPosition) && dragOffset == old(dragOffset)
    {
      if |history| == 0 {
        assert Undone(Snapshots()) == Snapshots();
        return;
      }
      var previousState := history[|history| - 1];
      ghost var undone := Timeline(history[..|history| - 1], previousState, [gameState] + future);
      assert Undone(Snapshots()) == undone;
      SnapshotsPop(history);
      SnapshotsCons(gameState, future);
      future := [gameState] + future;
      gameState := previousState;
      history := history[..|history| - 1];
      assert Snapshots() == undone;
    }

    /** `redo`; with nothing to redo only the advertisement path runs, which is not modelled. */
    method Redo()
      requires Valid() && draggedCards.None?
      modifies this
      ensures Valid()
      ensures Snapshots() == Redone(old(Snapshots()))
      ensures draggedCards == old(draggedCards) && dragSource == old(dragSource) && dropTarget == old(dropTarget)
      ensures dragPosition == old(dragPosition) && dragOffset == old(dragOffset)
    {
      if |future| == 0 {
        assert Redone(Snapshots()) == Snapshots();
        return;
      }
      var nextState := future[0];
      assert Redone(Snapshots()) == Timeline(history + [gameState], nextState, future[1..]);
      SnapshotsPush(history, gameState);
      SnapshotsTail(future);
      history := history + [gameState];
      gameState := nextState;
      future := future[1..];
    }

    /** The foundation search of `handleCardClick`: foundations in index order; at the first
        that accepts the card, the waste top first, then the tableau tops left to right. */
    static method FindFoundationMove(s: GameState, card: Card, now: int) returns (next: Option<GameState>)
      ensures next == FoundationClick(s, card, now)
    {
      var i := 0;
      while i < |s.foundation|
        invariant 0 <= i <= |s.foundation|
        invariant ClickSource(s, card).None? || AcceptingFoundation(s, card, 0) == AcceptingFoundation(s, card, i)
      {
        var foundationPile := s.foundation[i];
        if CanPlaceOnFoundation(card, TopOf(foundationPile)) {
          if |s.waste| > 0 && s.waste[|s.waste| - 1].id == card.id {
            var r := MoveCard(s, [card], PileRef(Waste, 0), PileRef(Foundation, i), now);
            return Some(r);
          }
          var j := 0;
          while j < |s.tableau|
            invariant 0 <= j <= |s.tableau|
            invariant TableauTopWithId(s, card.id, 0) == TableauTopWithId(s, card.id, j)
          {
            var tableauPile := s.tableau[j];
            if |tableauPile| > 0 && tableauPile[|tableauPile| - 1].id == card.id {
              var r := MoveCard(s, [card], PileRef(Tableau, j), PileRef(Foundation, i), now);
              return Some(r);
            }
            j := j + 1;
          }
        }
        i := i + 1;
      }
      return None;
    }

    /** The dispatch of `handleCardClick`: the stock's top card draws, the id-less placeholder
        of an empty stock recycles a non-empty waste, a face-up card searches the foundations. */
    static method ClickDispatch(s: GameState, c: Click, now: int) returns (next: Option<GameState>)
      ensures next == ClickOutcome(s, c, now)
    {
      if |s.stock| > 0 && c.OnCard? && s.stock[|s.stock| - 1].id == c.card.id {
        return Some(DrawCard(s));
      }
      if |s.stock| == 0 && |s.waste| > 0 && NoId(c) {
        return Some(DrawCard(s));
      }
      if ClickFaceUp(c) {
        next := FindFoundationMove(s, c.card, now);
        return;
      }
      return None;
    }

    /** `handleCardClick`: draw, recycle or move to a foundation, committing the state before
        it; any other click changes nothing. */
    method HandleCardClick(c: Click, now: int)
      requires Valid() && draggedCards.None?
      modifies this
      ensures Valid()
      ensures Snapshots() == Committing(old(Snapshots()), ClickOutcome(old(gameState), c, now))
      ensures draggedCards == old(draggedCards) && dragSource == old(dragSource) && dropTarget == old(dropTarget)
      ensures dragPosition == old(dragPosition) && dragOffset == old(dragOffset)
    {
      var next := ClickDispatch(gameState, c, now);
      if next.Some? {
        ClickKeepsShape(gameState, c, now);
        ClickKeepsCards(gameState, c, now);
        SaveToHistory();
        gameState := next.value;
      }
    }

    /** `handleCardDragStart`: records the session when there are cards and both the board and
        the card's element are found (`boardFound`, `cardCorner` stand for the DOM lookups; the
        corner is the card element's top-left point). */
    method HandleCardDragStart(cards: seq<Card>, sourceType: PileType, sourceIndex: int,
                               clientX: int, clientY: int, boardFound: bool, cardCorner: Option<Point>)
      requires Valid()
      requires ValidRef(PileRef(sourceType, sourceIndex))
      requires |cards| > 0 ==> ProperSource(gameState, cards, PileRef(sourceType, sourceIndex))
      modifies this
      ensures Valid()
      ensures Snapshots() == old(Snapshots()) && dropTarget == old(dropTarget)
      ensures |cards| == 0 || !boardFound || cardCorner.None? ==>
        && draggedCards == old(draggedCards) && dragSource == old(dragSource)
        && dragPosition == old(dragPosition) && dragOffset == old(dragOffset)
      ensures |cards| > 0 && boardFound && cardCorner.Some? ==>
        && draggedCards == Some(cards) && dragSource == Some(PileRef(sourceType, sourceIndex))
        && dragPosition == Point(clientX, clientY)
        && dragOffset == Point(clientX - cardCorner.value.x, clientY - cardCorner.value.y)
    {
      if |cards| == 0 {
        return;
      }
      if !boardFound {
        return;
      }
      if cardCorner.None? {
        return;
      }
      draggedCards := Some(cards);
      dragSource := Some(PileRef(sourceType, sourceIndex));
      dragPosition := Point(clientX, clientY);
      dragOffset := Point(clientX - cardCorner.value.x, clientY - cardCorner.value.y);
    }

    /** `handleMouseMove`: during a drag only the cursor position changes. */
    method HandleMouseMove(clientX: int, clientY: int)
      requires Valid()
      modifies this
      ensures Valid()
      ensures Snapshots() == old(Snapshots())
      ensures draggedCards == old(draggedCards) && dragSource == old(dragSource) && dropTarget == old(dropTarget)
      ensures dragOffset == old(dragOffset)
      ensures dragPosition == if draggedCards.Some? then Point(clientX, clientY) else old(dragPosition)
    {
      if draggedCards.None? {
        return;
      }
      dragPosition := Point(clientX, clientY);
    }

    /** The validator of `handleMouseUp`: a foundation takes one card by the foundation rule,
        a tableau pile takes the run by the tableau rule on its first card. */
    static method ValidateDrop(s: GameState, cards: seq<Card>, target: PileRef) returns (isValid: bool)
      requires |cards| > 0 && InState(s, target)
      ensures isValid == DropAccepted(s, cards, target)
    {
      var topDraggedCard := cards[0];
      isValid := false;
      if target.kind == Foundation {
        var destinationPile := s.foundation[target.index];
        isValid := |cards| == 1 && CanPlaceOnFoundation(topDraggedCard, TopOf(destinationPile));
      } else if target.kind == Tableau {
        var destinationPile := s.tableau[target.index];
        isValid := CanPlaceOnTableau(topDraggedCard, TopOf(destinationPile));
      }
    }

    /** `handleMouseUp`: commits the move when there is a target and the validator passes,
        and always ends the drag session. */
    method HandleMouseUp(now: int)
      requires Valid()
      modifies this
      ensures Valid() && Idle()
      ensures old(draggedCards).Some? && old(dragSource).Some? ==>
        Shaped(old(gameState)) && ValidRef(old(dragSource).value)
        && (old(dropTarget).Some? ==> ValidRef(old(dropTarget).value))
        && |old(draggedCards).value| > 0
      ensures old(draggedCards).Some? && old(dragSource).Some? ==>
        Snapshots() == Committing(old(Snapshots()),
          DropOutcome(old(gameState), old(draggedCards).value, old(dragSource).value, old(dropTarget), now))
      ensures old(draggedCards).None? || old(dragSource).None? ==> Snapshots() == old(Snapshots())
      ensures dragPosition == old(dragPosition) && dragOffset == old(dragOffset)
    {
      if draggedCards.None? || dragSource.None? {
        draggedCards, dragSource, dropTarget := None, None, None;
        return;
      }
      var next := Drop(gameState, draggedCards.value, dragSource.value, dropTarget, now);
      if next.Some? {
        SaveToHistory();
        assert SoundSnapshots(history) && SoundSnapshots(future);
        gameState := next.value;
      }
      draggedCards, dragSource, dropTarget := None, None, None;
    }

    /** The release of a drag from `source` over `target`: validate, then move. In a complete
        game a drop of what the source gives up keeps the board's piles and every card once. */
    static method Drop(s: GameState, cards: seq<Card>, source: PileRef, target: Option<PileRef>, now: int)
      returns (next: Option<GameState>)
      requires Shaped(s) && Complete(s) && ValidRef(source) && ProperSource(s, cards, source)
      requires target.Some? ==> ValidRef(target.value)
      ensures InState(s, source) && (target.Some? ==> InState(s, target.value))
      ensures next == DropOutcome(s, cards, source, target, now)
      ensures next.Some? ==> Shaped(next.value) && Complete(next.value)
    {
      ValidRefInState(s, source);
      if target.None? {
        return None;
      }
      ValidRefInState(s, target.value);
      var isValid := ValidateDrop(s, cards, target.value);
      if !isValid {
        return None;
      }
      var r := MoveCard(s, cards, source, target.value, now);
      DropKeepsShape(s, cards, source, target, now);
      DropKeepsCards(s, cards, source, target, now);
      return Some(r);
    }

    /** `handleDropTargetHover`, called by a foundation or tableau pile the board renders. */
    method HandleDropTargetHover(kind: PileType, index: int, isHovering: bool)
      requires Valid() && ValidRef(PileRef(kind, index)) && HoverWired(kind)
      modifies this
      ensures Valid()
      ensures dropTarget == Hovered(old(dropTarget), old(draggedCards).Some?, Some(Hover(kind, index, isHovering)))
      ensures Snapshots() == old(Snapshots())
      ensures draggedCards == old(draggedCards) && dragSource == old(dragSource)
      ensures dragPosition == old(dragPosition) && dragOffset == old(dragOffset)
    {
      if draggedCards.None? {
        return;
      }
      if isHovering {
        dropTarget := Some(PileRef(kind, index));
      } else if dropTarget.Some? && dropTarget.value.kind == kind && dropTarget.value.index == index {
        dropTarget := None;
      }
    }

    /** `handleAutoComplete`: always commits, even when nothing moves. */
    method HandleAutoComplete(now: int)
      requires Valid() && draggedCards.None?
      modifies this
      ensures Valid()
      ensures Snapshots() == Committed(old(Snapshots()), AutoCompleted(old(gameState), now))
      ensures draggedCards == old(draggedCards) && dragSource == old(dragSource) && dropTarget == old(dropTarget)
      ensures dragPosition == old(dragPosition) && dragOffset == old(dragOffset)
    {
      var next := AutoComplete(gameState, now);
      AutoCompleteKeepsShape(gameState, now);
      AutoCompletedOutcome(gameState, now);
      SaveToHistory();
      gameState := next;
    }
  }
}

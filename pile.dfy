/** What a rendered pile (src/components/game/Pile.tsx, with the face-up guard of
    src/components/game/Card.tsx) hands to the board: which cards a press starts dragging,
    which clicks it can forward, and the hover reports of its enter and leave events. */
module PileView {
  import opened Optional
  import opened Cards
  import opened GameStates
  import opened Moves

  /** What a click forwards: a rendered card, or the id-less object the empty-stock
      placeholder passes (Pile.tsx, line 107). */
  datatype Click = Placeholder | OnCard(card: Card)

  /** `!card.id`: the placeholder has no id; a card with the empty id counts as id-less too. */
  predicate NoId(c: Click)
  {
    c.Placeholder? || c.card.id == ""
  }

  /** `card.faceUp`: the placeholder has no such field, which is falsy. */
  predicate ClickFaceUp(c: Click)
  {
    c.OnCard? && c.card.faceUp
  }

  /** The pile's own `handleCardDragStart`: on the waste or a foundation only the top card,
      alone; on a tableau pile the run from the first card with the touched id, provided that
      card is face up; the stock has no drag handler. */
  function DragSelection(kind: PileType, cards: seq<Card>, touched: Card): Option<seq<Card>>
  {
    match kind
    case Waste => if |cards| > 0 && cards[|cards| - 1].id == touched.id then Some([touched]) else None
    case Foundation => if |cards| > 0 && cards[|cards| - 1].id == touched.id then Some([touched]) else None
    case Tableau =>
      var k := IndexOfId(cards, touched.id);
      if k >= 0 && cards[k].faceUp then Some(cards[k..]) else None
    case Stock => None
  }

  /** A press on a card: the card calls the pile's handler only when it is face up. */
  function Pressed(kind: PileType, cards: seq<Card>, touched: Card): Option<seq<Card>>
  {
    if touched.faceUp then DragSelection(kind, cards, touched) else None
  }

  /** On the waste or a foundation a drag starts exactly when the touched card has the top's
      id, and then drags that card alone. */
  lemma TopOnlyDrag(kind: PileType, cards: seq<Card>, touched: Card)
    requires kind == Waste || kind == Foundation
    ensures DragSelection(kind, cards, touched).Some? <==> |cards| > 0 && cards[|cards| - 1].id == touched.id
    ensures DragSelection(kind, cards, touched).Some? ==> DragSelection(kind, cards, touched).value == [touched]
  {
  }

  /** k is the first index of a card with the id. */
  predicate FirstWithId(cards: seq<Card>, id: string, k: int)
  {
    0 <= k < |cards| && cards[k].id == id && forall m :: 0 <= m < k ==> cards[m].id != id
  }

  /** On a tableau pile a drag takes the whole run from the first card with the touched id to
      the pile's top: non-empty, a suffix of the pile, ending in the top card. It starts exactly
      when that first card exists and is face up. */
  lemma TableauRunDrag(cards: seq<Card>, touched: Card)
    ensures var sel := DragSelection(Tableau, cards, touched);
      sel.Some? <==> exists k :: FirstWithId(cards, touched.id, k) && cards[k].faceUp
    ensures var sel := DragSelection(Tableau, cards, touched);
      sel.Some? ==>
        && 0 < |sel.value| <= |cards|
        && sel.value == cards[|cards| - |sel.value|..]
        && sel.value[0].id == touched.id && sel.value[0].faceUp
        && sel.value[|sel.value| - 1] == cards[|cards| - 1]
  {
    var k := IndexOfId(cards, touched.id);
    if k >= 0 && cards[k].faceUp {
      assert cards[k..] == cards[|cards| - |cards[k..]|..];
    }
  }

  /** The stock never starts a drag, and a face-down card never does. */
  lemma NoDragFromStockOrFaceDown(kind: PileType, cards: seq<Card>, touched: Card)
    ensures kind == Stock ==> Pressed(kind, cards, touched).None?
    ensures !touched.faceUp ==> Pressed(kind, cards, touched).None?
  {
  }

  /** A drag started on a pile of the current state hands the board a correct `moveCard`
      source: whatever is later dropped leaves that pile without losing or duplicating cards. */
  lemma SelectionIsProperSource(s: GameState, source: PileRef, touched: Card)
    requires InState(s, source)
    requires var pile := match source.kind
        case Waste => s.waste
        case Foundation => s.foundation[source.index]
        case Tableau => s.tableau[source.index]
        case Stock => s.stock;
      DragSelection(source.kind, pile, touched).Some?
    ensures var pile := match source.kind
        case Waste => s.waste
        case Foundation => s.foundation[source.index]
        case Tableau => s.tableau[source.index]
        case Stock => s.stock;
      ProperSource(s, DragSelection(source.kind, pile, touched).value, source)
  {
  }

  /** The clicks a pile can forward. A tableau pile renders every card; the waste, a foundation
      and the stock render only their top card; an empty stock renders the placeholder, an
      empty waste or foundation nothing clickable. */
  predicate CanClick(kind: PileType, cards: seq<Card>, c: Click)
  {
    match kind
    case Tableau => c.OnCard? && c.card in cards
    case _ =>
      if |cards| > 0 then c == OnCard(cards[|cards| - 1])
      else kind == Stock && c == Placeholder
  }

  /** The placeholder is the only click an empty stock forwards, and only an empty stock
      forwards it. */
  lemma PlaceholderOnlyOnEmptyStock(kind: PileType, cards: seq<Card>)
    ensures CanClick(kind, cards, Placeholder) <==> kind == Stock && |cards| == 0
  {
  }

  /** A hover report: the pile's kind and index and whether the cursor entered it. */
  datatype Hover = Hover(kind: PileType, index: int, isHovering: bool)

  /** `handleMouseEnter`: a pile given a hover handler (`hasHoverHandler`) reports that the
      cursor entered it; a pile without one reports nothing. */
  function MouseEnter(kind: PileType, index: int, hasHoverHandler: bool): (h: Option<Hover>)
    ensures h.Some? <==> hasHoverHandler
    ensures h.Some? ==> h.value.isHovering && PileRef(h.value.kind, h.value.index) == PileRef(kind, index)
  {
    if hasHoverHandler then Some(Hover(kind, index, true)) else None
  }

  /** `handleMouseLeave`: a pile given a hover handler reports that the cursor left it; a pile
      without one reports nothing. */
  function MouseLeave(kind: PileType, index: int, hasHoverHandler: bool): (h: Option<Hover>)
    ensures h.Some? <==> hasHoverHandler
    ensures h.Some? ==> !h.value.isHovering && PileRef(h.value.kind, h.value.index) == PileRef(kind, index)
  {
    if hasHoverHandler then Some(Hover(kind, index, false)) else None
  }
}

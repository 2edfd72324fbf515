/** `autoComplete` (src/lib/solitaire.ts, lines 204-266): a greedy loop that, pass after
    pass, moves one face-up tableau top (piles left to right) or else the waste top to the
    first foundation that accepts it, until a pass moves nothing; then the win is rechecked.
    Every pass that moves takes one card off the stock, waste and tableau, which is why the
    loop ends. */
module AutoFinish {
  import opened Optional
  import opened Cards
  import opened GameStates
  import opened Rules
  import opened Moves

  /** The cards not on a foundation: the loop's measure. */
  function Outside(s: GameState): nat
  {
    |s.stock| + |s.waste| + CardCount(s.tableau)
  }

  /** The first foundation at index `from` or later that accepts the card, or the number of
      foundations when none does. */
  function AcceptingFoundation(s: GameState, card: Card, from: nat): (j: nat)
    requires from <= |s.foundation|
    ensures from <= j <= |s.foundation|
    ensures j < |s.foundation| ==> CanPlaceOnFoundation(card, TopOf(s.foundation[j]))
    ensures forall m :: from <= m < j ==> !CanPlaceOnFoundation(card, TopOf(s.foundation[m]))
    decreases |s.foundation| - from
  {
    if from == |s.foundation| then from
    else if CanPlaceOnFoundation(card, TopOf(s.foundation[from])) then from
    else AcceptingFoundation(s, card, from + 1)
  }

  /** One move the loop can make: a tableau pile's top, or the waste's top, to a foundation. */
  datatype AutoMove = FromTableau(pile: nat, target: nat) | FromWaste(target: nat)

  /** The first tableau pile at index `from` or later whose face-up top some foundation accepts. */
  function FirstTableauMove(s: GameState, from: nat): (m: Option<AutoMove>)
    requires from <= |s.tableau|
    ensures m.Some? ==>
      m.value.FromTableau? && from <= m.value.pile < |s.tableau|
      && m.value.target < |s.foundation| && |s.tableau[m.value.pile]| > 0
    ensures m.Some? ==>
      && TopGoesUp(s, m.value.pile)
      && m.value.target == AcceptingFoundation(s, s.tableau[m.value.pile][|s.tableau[m.value.pile]| - 1], 0)
    ensures forall i :: from <= i < |s.tableau| && (m.None? || i < m.value.pile) ==> !TopGoesUp(s, i)
    decreases |s.tableau| - from
  {
    if from == |s.tableau| then None
    else if TopGoesUp(s, from) then
      var pile := s.tableau[from];
      Some(FromTableau(from, AcceptingFoundation(s, pile[|pile| - 1], 0)))
    else FirstTableauMove(s, from + 1)
  }

  /** Tableau pile i has a face-up top that some foundation accepts. */
  predicate TopGoesUp(s: GameState, i: nat)
    requires i < |s.tableau|
  {
    var pile := s.tableau[i];
    |pile| > 0 && pile[|pile| - 1].faceUp && AcceptingFoundation(s, pile[|pile| - 1], 0) < |s.foundation|
  }

  /** The move one pass of the loop makes, if any: tableau piles first, then the waste. */
  function NextAutoMove(s: GameState): (m: Option<AutoMove>)
    ensures m.Some? ==> Possible(s, m.value)
  {
    var t := FirstTableauMove(s, 0);
    if t.Some? then t
    else if |s.waste| > 0 && AcceptingFoundation(s, s.waste[|s.waste| - 1], 0) < |s.foundation|
    then Some(FromWaste(AcceptingFoundation(s, s.waste[|s.waste| - 1], 0)))
    else None
  }

  /** A move that names an existing, non-empty source pile and an existing foundation. */
  predicate Possible(s: GameState, m: AutoMove)
  {
    match m
    case FromTableau(i, j) => i < |s.tableau| && j < |s.foundation| && |s.tableau[i]| > 0
    case FromWaste(j) => j < |s.foundation| && |s.waste| > 0
  }

  /** The card a move takes: the top of its source pile. */
  function MovedCard(s: GameState, m: AutoMove): Card
    requires Possible(s, m)
  {
    match m
    case FromTableau(i, _) => s.tableau[i][|s.tableau[i]| - 1]
    case FromWaste(_) => s.waste[|s.waste| - 1]
  }

  function Source(m: AutoMove): PileRef
  {
    match m
    case FromTableau(i, _) => PileRef(Tableau, i)
    case FromWaste(_) => PileRef(Waste, 0)
  }

  /** The `moveCard` call a pass makes for the move. */
  function Apply(s: GameState, m: AutoMove, now: int): GameState
    requires Possible(s, m)
  {
    Moved(s, [MovedCard(s, m)], Source(m), PileRef(Foundation, m.target), now)
  }

  /** What a move of the loop does: the card leaves its pile (a tableau pile is cut at the
      first card with the card's id, and its new top turned face up), lands on the foundation,
      and counts as one move; the stock is never touched. */
  lemma ApplyEffect(s: GameState, m: AutoMove, now: int)
    requires Possible(s, m)
    ensures var r := Apply(s, m, now);
      && r.stock == s.stock
      && r.foundation == s.foundation[m.target := s.foundation[m.target] + [MovedCard(s, m)]]
      && r.moves == s.moves + 1
      && r.isWon == CheckWinCondition(r)
      && (m.FromWaste? ==> r.waste == Popped(s.waste) && r.tableau == s.tableau)
      && (m.FromTableau? ==>
            var pile := s.tableau[m.pile];
            r.waste == s.waste
            && r.tableau == s.tableau[m.pile := Revealed(Spliced(pile, IndexOfId(pile, MovedCard(s, m).id)))])
  {
  }

  /** Every move the loop makes takes at least one card off the stock, waste and tableau. */
  lemma ApplyShrinks(s: GameState, m: AutoMove, now: int)
    requires Possible(s, m)
    ensures Outside(Apply(s, m, now)) < Outside(s)
  {
    ApplyEffect(s, m, now);
    if m.FromTableau? {
      var pile := s.tableau[m.pile];
      var k := IndexOfId(pile, MovedCard(s, m).id);
      assert 0 <= k < |pile|;
      CardCountUpdate(s.tableau, m.pile, Revealed(Spliced(pile, k)));
    }
  }

  /** The passes of the loop, up to the first that moves nothing. */
  function AutoRun(s: GameState, now: int): GameState
    decreases Outside(s)
  {
    var m := NextAutoMove(s);
    if m.None? then s
    else
      ApplyShrinks(s, m.value, now);
      AutoRun(Apply(s, m.value, now), now)
  }

  /** `autoComplete(state)` with `Date.now()` as `now`. */
  function AutoCompleted(s: GameState, now: int): GameState
  {
    StampWin(AutoRun(s, now), now)
  }

  /** The inner `for` over the foundations: the first one that accepts the card. */
  method FindFoundation(s: GameState, card: Card) returns (j: nat)
    ensures j == AcceptingFoundation(s, card, 0)
  {
    j := 0;
    while j < |s.foundation|
      invariant j <= |s.foundation|
      invariant AcceptingFoundation(s, card, 0) == AcceptingFoundation(s, card, j)
    {
      if CanPlaceOnFoundation(card, TopOf(s.foundation[j])) {
        return;
      }
      j := j + 1;
    }
  }

  /** The first half of a pass: the tableau piles left to right, skipping empty piles and
      face-down tops, moving the first top some foundation accepts. */
  method TableauPass(current: GameState, now: int) returns (next: GameState, madeMove: bool)
    ensures madeMove == FirstTableauMove(current, 0).Some?
    ensures madeMove ==> next == Apply(current, FirstTableauMove(current, 0).value, now)
    ensures !madeMove ==> next == current
  {
    var i := 0;
    while i < |current.tableau|
      invariant 0 <= i <= |current.tableau|
      invariant FirstTableauMove(current, 0) == FirstTableauMove(current, i)
    {
      next, madeMove := TryPile(current, i, now);
      if madeMove {
        return;
      }
      i := i + 1;
    }
    next, madeMove := current, false;
  }

  /** One iteration of the tableau loop: skips an empty pile or a face-down top, otherwise
      moves the top to the first foundation that accepts it, if any. */
  method TryPile(current: GameState, i: nat, now: int) returns (next: GameState, madeMove: bool)
    requires i < |current.tableau|
    ensures madeMove == TopGoesUp(current, i)
    ensures madeMove ==> next == Apply(current, FirstTableauMove(current, i).value, now)
    ensures !madeMove ==> next == current
  {
    next, madeMove := current, false;
    var pile := current.tableau[i];
    if |pile| == 0 {
      return;
    }
    var topCard := pile[|pile| - 1];
    if !topCard.faceUp {
      return;
    }
    var j := FindFoundation(current, topCard);
    if j < |current.foundation| {
      assert FirstTableauMove(current, i) == Some(FromTableau(i, j));
      next := MoveCard(current, [topCard], PileRef(Tableau, i), PileRef(Foundation, j), now);
      madeMove := true;
    }
  }

  /** The second half of a pass, reached only when no tableau top moved: the waste top goes
      to the first foundation that accepts it. */
  method WastePass(current: GameState, now: int) returns (next: GameState, madeMove: bool)
    requires FirstTableauMove(current, 0).None?
    ensures madeMove == NextAutoMove(current).Some?
    ensures madeMove ==> next == Apply(current, NextAutoMove(current).value, now)
    ensures !madeMove ==> next == current
  {
    next, madeMove := current, false;
    if |current.waste| > 0 {
      var wasteCard := current.waste[|current.waste| - 1];
      var j := FindFoundation(current, wasteCard);
      if j < |current.foundation| {
        next := MoveCard(current, [wasteCard], PileRef(Waste, 0), PileRef(Foundation, j), now);
        madeMove := true;
      }
    }
  }

  /** `autoComplete`: passes until one moves nothing, each move made by `moveCard`, then the
      win bookkeeping. */
  method AutoComplete(state: GameState, now: int) returns (r: GameState)
    ensures r == AutoCompleted(state, now)
  {
    var current := state;
    var madeMove := true;
    while madeMove
      invariant AutoRun(current, now) == AutoRun(state, now)
      invariant !madeMove ==> NextAutoMove(current).None?
      decreases Outside(current) + (if madeMove then 1 else 0)
    {
      ghost var before := current;
      current, madeMove := TableauPass(current, now);
      if !madeMove {
        current, madeMove := WastePass(current, now);
      }
      if madeMove {
        ApplyShrinks(before, NextAutoMove(before).value, now);
      }
    }
    var won := CheckWinCondition(current);
    current := current.(isWon := won);
    if won && Falsy(current.endTime) {
      current := current.(endTime := Some(now));
    }
    r := current;
  }

  // ----- what the loop promises -----

  /** No face-up tableau top and no waste top fits on any foundation. */
  predicate Stuck(s: GameState)
  {
    && (forall i, j ::
          0 <= i < |s.tableau| && 0 <= j < |s.foundation| && |s.tableau[i]| > 0 && s.tableau[i][|s.tableau[i]| - 1].faceUp
          ==> !CanPlaceOnFoundation(s.tableau[i][|s.tableau[i]| - 1], TopOf(s.foundation[j])))
    && (|s.waste| > 0 ==>
          forall j :: 0 <= j < |s.foundation| ==> !CanPlaceOnFoundation(s.waste[|s.waste| - 1], TopOf(s.foundation[j])))
  }

  /** The tableau search from `from` finds nothing exactly when no pile from there on can go up. */
  lemma FirstTableauMoveNone(s: GameState, from: nat)
    requires from <= |s.tableau|
    ensures FirstTableauMove(s, from).None? <==>
      forall i, j ::
        from <= i < |s.tableau| && 0 <= j < |s.foundation| && |s.tableau[i]| > 0 && s.tableau[i][|s.tableau[i]| - 1].faceUp
        ==> !CanPlaceOnFoundation(s.tableau[i][|s.tableau[i]| - 1], TopOf(s.foundation[j]))
  {
    FirstTableauMoveNoneFrom(s, from);
    forall i | from <= i < |s.tableau|
      ensures TopGoesUp(s, i) <==>
        exists j :: 0 <= j < |s.foundation| && |s.tableau[i]| > 0 && s.tableau[i][|s.tableau[i]| - 1].faceUp
          && CanPlaceOnFoundation(s.tableau[i][|s.tableau[i]| - 1], TopOf(s.foundation[j]))
    {
      var pile := s.tableau[i];
      if |pile| > 0 && pile[|pile| - 1].faceUp {
        var k := AcceptingFoundation(s, pile[|pile| - 1], 0);
        if k < |s.foundation| {
          assert CanPlaceOnFoundation(pile[|pile| - 1], TopOf(s.foundation[k]));
        }
      }
    }
  }

  /** The search from `from` finds nothing exactly when no pile from there on goes up. */
  lemma {:induction false} FirstTableauMoveNoneFrom(s: GameState, from: nat)
    requires from <= |s.tableau|
    ensures FirstTableauMove(s, from).None? <==> forall i :: from <= i < |s.tableau| ==> !TopGoesUp(s, i)
    decreases |s.tableau| - from
  {
    if from < |s.tableau| {
      FirstTableauMoveNoneFrom(s, from + 1);
      if TopGoesUp(s, from) {
        assert FirstTableauMove(s, from).Some?;
      } else {
        assert FirstTableauMove(s, from) == FirstTableauMove(s, from + 1);
      }
    }
  }

  /** A pass moves nothing exactly when the state is stuck. */
  lemma NoAutoMoveIffStuck(s: GameState)
    ensures NextAutoMove(s).None? <==> Stuck(s)
  {
    FirstTableauMoveNone(s, 0);
  }

  /** The loop always ends stuck. */
  lemma {:induction false} AutoRunEndsStuck(s: GameState, now: int)
    ensures Stuck(AutoRun(s, now))
    decreases Outside(s)
  {
    var m := NextAutoMove(s);
    if m.None? {
      NoAutoMoveIffStuck(s);
    } else {
      ApplyShrinks(s, m.value, now);
      AutoRunEndsStuck(Apply(s, m.value, now), now);
    }
  }

  /** In a complete state each move the loop makes is a correct `moveCard` call, so no card is
      lost or duplicated, and exactly one card leaves the stock, waste and tableau. */
  lemma ApplyConservesCards(s: GameState, m: AutoMove, now: int)
    requires Complete(s)
    requires Possible(s, m)
    ensures Complete(Apply(s, m, now))
    ensures Outside(Apply(s, m, now)) == Outside(s) - 1
  {
    var cards := [MovedCard(s, m)];
    ApplyEffect(s, m, now);
    if m.FromTableau? {
      var pile := s.tableau[m.pile];
      TopIsProperSource(s, m.pile, MovedCard(s, m));
      var k := IndexOfId(pile, MovedCard(s, m).id);
      assert k == |pile| - 1;
      CardCountUpdate(s.tableau, m.pile, Revealed(Spliced(pile, k)));
    }
    MovedConservesCards(s, cards, Source(m), PileRef(Foundation, m.target), now);
  }

  /** Auto-finishing a complete state keeps it complete. */
  lemma {:induction false} AutoRunConservesCards(s: GameState, now: int)
    requires Complete(s)
    ensures Complete(AutoRun(s, now))
    decreases Outside(s)
  {
    var m := NextAutoMove(s);
    if m.Some? {
      ApplyShrinks(s, m.value, now);
      ApplyConservesCards(s, m.value, now);
      AutoRunConservesCards(Apply(s, m.value, now), now);
    }
  }

  /** Foundations only grow: each one of the result starts with what it held before. */
  predicate FoundationsExtend(s: GameState, r: GameState)
  {
    |r.foundation| == |s.foundation|
    && forall j :: 0 <= j < |s.foundation| ==> s.foundation[j] <= r.foundation[j]
  }

  lemma {:induction false} AutoRunExtendsFoundations(s: GameState, now: int)
    ensures FoundationsExtend(s, AutoRun(s, now))
    ensures |AutoRun(s, now).tableau| == |s.tableau|
    decreases Outside(s)
  {
    var m := NextAutoMove(s);
    if m.Some? {
      ApplyShrinks(s, m.value, now);
      ApplyEffect(s, m.value, now);
      var t := Apply(s, m.value, now);
      AutoRunExtendsFoundations(t, now);
      forall j | 0 <= j < |s.foundation|
        ensures s.foundation[j] <= AutoRun(s, now).foundation[j]
      {
        assert s.foundation[j] <= t.foundation[j];
      }
    }
  }

  /** The tableau search proposes only tops the rule accepts. */
  lemma {:induction false} FirstTableauMoveAccepts(s: GameState, from: nat)
    requires from <= |s.tableau| && FirstTableauMove(s, from).Some?
    ensures var m := FirstTableauMove(s, from).value;
      CanPlaceOnFoundation(MovedCard(s, m), TopOf(s.foundation[m.target]))
    decreases |s.tableau| - from
  {
    var pile := s.tableau[from];
    if !(|pile| > 0 && pile[|pile| - 1].faceUp && AcceptingFoundation(s, pile[|pile| - 1], 0) < |s.foundation|) {
      FirstTableauMoveAccepts(s, from + 1);
    }
  }

  /** Every move the loop makes is one the foundation rule accepts. */
  lemma NextAutoMoveAccepts(s: GameState)
    requires NextAutoMove(s).Some?
    ensures var m := NextAutoMove(s).value;
      CanPlaceOnFoundation(MovedCard(s, m), TopOf(s.foundation[m.target]))
  {
    if FirstTableauMove(s, 0).Some? {
      FirstTableauMoveAccepts(s, 0);
    }
  }

  /** So foundations built by the rule stay same-suit runs from the Ace. */
  lemma ApplyKeepsFoundationRuns(s: GameState, now: int)
    requires NextAutoMove(s).Some?
    requires forall j :: 0 <= j < |s.foundation| ==> FoundationRun(s.foundation[j])
    ensures var r := Apply(s, NextAutoMove(s).value, now);
      forall j :: 0 <= j < |r.foundation| ==> FoundationRun(r.foundation[j])
  {
    var m := NextAutoMove(s).value;
    ApplyEffect(s, m, now);
    NextAutoMoveAccepts(s);
    FoundationRuleKeepsRun(s.foundation[m.target], MovedCard(s, m));
  }

  lemma {:induction false} AutoRunKeepsFoundationRuns(s: GameState, now: int)
    requires forall j :: 0 <= j < |s.foundation| ==> FoundationRun(s.foundation[j])
    ensures forall j :: 0 <= j < |AutoRun(s, now).foundation| ==> FoundationRun(AutoRun(s, now).foundation[j])
    decreases Outside(s)
  {
    var m := NextAutoMove(s);
    if m.Some? {
      ApplyShrinks(s, m.value, now);
      ApplyKeepsFoundationRuns(s, now);
      AutoRunKeepsFoundationRuns(Apply(s, m.value, now), now);
    }
  }

  /** The result of `autoComplete` is stuck, its win flag matches its foundations, a
      stamped end time is never overwritten, and (with foundations built by the rule) a new
      end time is stamped only on a win. */
  lemma AutoCompletedOutcome(s: GameState, now: int)
    ensures Stuck(AutoCompleted(s, now))
    ensures AutoCompleted(s, now).isWon == CheckWinCondition(AutoCompleted(s, now))
    ensures Complete(s) ==> Complete(AutoCompleted(s, now))
    ensures !Falsy(s.endTime) ==> AutoCompleted(s, now).endTime == s.endTime
    ensures AutoCompleted(s, now).endTime != s.endTime ==> AutoCompleted(s, now).endTime == Some(now)
    ensures (forall j :: 0 <= j < |s.foundation| ==> FoundationRun(s.foundation[j])) ==>
      (AutoCompleted(s, now).endTime != s.endTime ==> CheckWinCondition(AutoCompleted(s, now)))
  {
    var a := AutoRun(s, now);
    AutoRunEndsStuck(s, now);
    AutoRunKeepsEndTime(s, now);
    if forall j :: 0 <= j < |s.foundation| ==> FoundationRun(s.foundation[j]) {
      AutoRunStampsOnlyOnWin(s, now);
    }
    StampWinKeepsIds(a, now);
    if Complete(s) {
      AutoRunConservesCards(s, now);
    }
  }

  /** An end time already stamped survives the whole run; otherwise the run either leaves it
      alone or stamps `now`, when one of its moves wins. */
  lemma {:induction false} AutoRunKeepsEndTime(s: GameState, now: int)
    ensures !Falsy(s.endTime) ==> AutoRun(s, now).endTime == s.endTime
    ensures AutoRun(s, now).endTime != s.endTime ==> AutoRun(s, now).endTime == Some(now)
    decreases Outside(s)
  {
    var m := NextAutoMove(s);
    if m.Some? {
      ApplyShrinks(s, m.value, now);
      AutoRunKeepsEndTime(Apply(s, m.value, now), now);
    }
  }

  /** A move of the loop changes the end time only when it completes every foundation. */
  lemma ApplyStampsOnlyOnWin(s: GameState, m: AutoMove, now: int)
    requires Possible(s, m)
    ensures Apply(s, m, now).endTime != s.endTime ==> CheckWinCondition(Apply(s, m, now))
  {
    ApplyEffect(s, m, now);
  }

  /** Once every foundation is a full run from the Ace, the loop cannot add a fourteenth
      card anywhere, so the game stays won. */
  lemma WonRunStaysWon(s: GameState, now: int)
    requires CheckWinCondition(s)
    requires forall j :: 0 <= j < |s.foundation| ==> FoundationRun(s.foundation[j])
    ensures CheckWinCondition(AutoRun(s, now))
  {
    AutoRunExtendsFoundations(s, now);
    AutoRunKeepsFoundationRuns(s, now);
    var r := AutoRun(s, now);
    forall j | 0 <= j < |r.foundation|
      ensures |r.foundation[j]| == SUIT_SIZE
    {
      FoundationRunBounded(r.foundation[j]);
      assert s.foundation[j] <= r.foundation[j];
    }
  }

  /** With foundations built by the rule, the run stamps an end time only when it ends won. */
  lemma {:induction false} AutoRunStampsOnlyOnWin(s: GameState, now: int)
    requires forall j :: 0 <= j < |s.foundation| ==> FoundationRun(s.foundation[j])
    ensures AutoRun(s, now).endTime != s.endTime ==> CheckWinCondition(AutoRun(s, now))
    decreases Outside(s)
  {
    var m := NextAutoMove(s);
    if m.Some? {
      ApplyShrinks(s, m.value, now);
      ApplyKeepsFoundationRuns(s, now);
      var t := Apply(s, m.value, now);
      AutoRunStampsOnlyOnWin(t, now);
      ApplyStampsOnlyOnWin(s, m.value, now);
      if t.endTime != s.endTime {
        WonRunStaysWon(t, now);
      }
    }
  }
}

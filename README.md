# Klondike solitaire: a verified model of the game core

This project is a Dafny model of the core of a browser Klondike solitaire game.

- **The game rules library** (`src/lib/solitaire.ts`):
  - building the 52-card deck;
  - the Fisher–Yates shuffle;
  - dealing the seven tableau piles;
  - drawing from the stock and recycling the waste;
  - the foundation and tableau placement rules;
  - the unchecked `moveCard` transition;
  - the win test;
  - the auto-finish loop.
- **The board component** (`src/components/game/GameBoard.tsx`):
  - its undo/redo history and redo list;
  - clicks, which draw from the stock or send a card to a foundation;
  - drag-and-drop through the mouse-down, mouse-move, hover and mouse-up handlers;
  - the auto-complete button.
- **The pile component** (`src/components/game/Pile.tsx`, with the face-up guard of `Card.tsx`):
  - which cards a press starts dragging;
  - which clicks a pile forwards, including the empty-stock placeholder;
  - the hover reports of its enter and leave events.
- **The statistics clock** (`src/components/game/Stats.tsx`):
  - the elapsed-seconds expression;
  - `formatTime`, with JavaScript's `Math.floor`, `%`, `toString` and `padStart` written out.

Files:

| file | module | models |
|---|---|---|
| `optional.dfy` | `Optional` | the `Option` type used for `undefined`/`null` |
| `cards.dfy` | `Cards` | card record, suits, values, identity strings, `createDeck` |
| `shuffle.dfy` | `Shuffle` | `shuffleDeck` |
| `state.dfy` | `GameStates` | the game state, pile references, card conservation, `checkWinCondition`, the win stamp |
| `rules.dfy` | `Rules` | `canPlaceOnFoundation`, `canPlaceOnTableau` |
| `deal.dfy` | `Deal` | `initializeGame` |
| `moves.dfy` | `Moves` | `drawCard`, `moveCard` |
| `autocomplete.dfy` | `AutoFinish` | `autoComplete` |
| `pile.dfy` | `PileView` | the pile component's drag selection, clicks and hover reports |
| `history.dfy` | `History` | the undo/redo timeline |
| `board.dfy` | `Board` | the board component as a class with the component's state as fields |
| `stats.dfy` | `Stats` | the clock |

The rules library works on plain data. Most of it builds new arrays and objects, and `moveCard` copies every pile before changing it. The one exception is that `moveCard` turns the new top card of a tableau pile face up in place (see "## Left out"). It is modelled with datatypes and functions, and each loop of the source becomes a method proved against a function:

- `CreateDeck`, `ShuffleDeck` (an in-place array shuffle), `DealRow`/`DealTableau`/`InitializeGame`, `FindIndex`, `MoveCard` and `AutoComplete` with its two passes.

The board component keeps its state in React hooks. It becomes the class `Board.GameBoard`:

- its fields are `gameState`, `history`, `future`, `draggedCards`, `dragSource`, `dragPosition`, `dragOffset` and `dropTarget`;
- each handler is a method whose `ensures` gives the whole new state;
- the class invariant `Valid()` keeps, for every snapshot, four foundations, seven tableau piles and each of the 52 cards exactly once; it also keeps the open drag equal to what its source pile gives up, and the drop target to a foundation or tableau pile;
- the handlers that commit a move are specified by the functions `ClickOutcome`, `DropOutcome` and `AutoCompleted`, and by the timeline functions `Committed`, `Undone` and `Redone`.

Randomness (`Math.random`) and the clock (`Date.now`) become parameters:

- a sequence `randoms` of reals in `[0, 1)`;
- an integer `now`.

## Model

| member | source | states |
|---|---|---|
| `Cards.ValueOrder` | src/lib/solitaire.ts:30-34 | the rank order of a value is its 1-based position in the value list (A = 1 … K = 13) |
| `Cards.MakeCardWellFormed` | src/lib/solitaire.ts:36-52 | a dealt card is face down, has id `suit-value`, rank order 1..13, and is red exactly for hearts and diamonds |
| `Cards.ParseCardIdRoundTrip` | src/lib/solitaire.ts:46 | the id `${suit}-${value}` reads back as the suit and value it was built from |
| `Cards.CardIdInjective` | src/lib/solitaire.ts:46 | two different cards never share an id |
| `Cards.CreateDeck` | src/lib/solitaire.ts:40-57 | the nested loops build the canonical deck: 52 cards, suit-major and Ace-low, each well formed and face down |
| `Cards.PushSuit` | src/lib/solitaire.ts:44-53 | the inner loop appends one suit's thirteen cards, so the deck stays a prefix of the canonical deck |
| `Cards.DeckPrefixPush` | src/lib/solitaire.ts:45-52 | pushing the next suit/value card extends a prefix of the canonical deck by one |
| `Cards.DeckHasEveryCard` | src/lib/solitaire.ts:43-54 | every suit/value pair occurs in the deck |
| `Cards.DeckIdDeterminesPosition` | src/lib/solitaire.ts:40-57 | no two deck positions carry the same id |
| `Cards.DeckBagAtMostOnce` | src/lib/solitaire.ts:40-57 | the deck holds each identity at most once |
| `Cards.SuitColor` | src/lib/solitaire.ts:36-38 | `getSuitColor`: hearts and diamonds are red, clubs and spades black (stated for dealt cards by `Cards.MakeCardWellFormed`) |
| `Cards.PermutationKeepsIdBag` | src/lib/solitaire.ts:59-68 | a permutation of cards keeps the multiset of identities |
| `Shuffle.SwapIndex` | src/lib/solitaire.ts:63 | `Math.floor(r * (i + 1))` for r in [0, 1) lies in 0..i |
| `Shuffle.ScaledIsProduct` | src/lib/solitaire.ts:63 | the repeated sum used for `r * (i + 1)` equals the real product |
| `Shuffle.AfterPasses` | src/lib/solitaire.ts:62-65 | each pass exchanges position `length - k` with its drawn partner; the deck keeps its length |
| `Shuffle.Passes` | src/lib/solitaire.ts:62 | the loop runs once for each position from the last down to 1, so fewer passes than cards, or none |
| `Shuffle.PassIsPermutation` | src/lib/solitaire.ts:64 | one pass keeps the multiset of cards |
| `Shuffle.AfterPassesIsPermutation` | src/lib/solitaire.ts:62-65 | any number of passes keeps the multiset of cards |
| `Shuffle.ShuffledIsPermutation` | src/lib/solitaire.ts:59-68 | the shuffled deck has the input's length and multiset of cards |
| `Shuffle.SwapKeepsMultiset` | src/lib/solitaire.ts:64 | exchanging two positions keeps the multiset of cards |
| `Shuffle.ShuffleDeck` | src/lib/solitaire.ts:59-68 | the in-place loop on a copy, from the last position down to 1, returns the specified shuffle of the deck, a permutation of it |
| `GameStates.TopOf` | src/lib/solitaire.ts:223 | `pile[pile.length - 1]` is undefined exactly for an empty pile, otherwise the last card |
| `GameStates.WinEmptiesOtherPiles` | src/lib/solitaire.ts:199-202 | with the 52 cards in play, four full foundations leave stock, waste and tableau empty |
| `GameStates.CheckWinCondition` | src/lib/solitaire.ts:199-202 | every foundation holds thirteen cards (what that implies is `GameStates.WinEmptiesOtherPiles`) |
| `GameStates.StampWin` | src/lib/solitaire.ts:190-194 | `isWon` is recomputed by the win test; an end time already set is kept; a win with no end time (or a falsy one) stamps `now`, and a new end time is set only that way; nothing else changes |
| `GameStates.StampWinKeepsIds` | src/lib/solitaire.ts:190-194 | the win stamp moves no card |
| `GameStates.CompletePileDistinct` | src/lib/solitaire.ts:70-98 | while the 52 cards are in play, no pile holds an identity twice |
| `Rules.CanPlaceOnFoundation` | src/lib/solitaire.ts:124-135 | a face-up card goes on an empty foundation only as an Ace, otherwise on the same suit one rank higher (what it keeps is `Rules.FoundationRuleKeepsRun`) |
| `Rules.CanPlaceOnTableau` | src/lib/solitaire.ts:137-149 | a face-up card goes on an empty pile only as a King, otherwise on the other colour one rank lower (what it keeps is `Rules.TableauRuleKeepsRun`) |
| `Rules.FoundationRuleKeepsRun` | src/lib/solitaire.ts:124-135 | placing by the foundation rule keeps a foundation an Ace-up run of one suit |
| `Rules.FoundationRunBounded` | src/lib/solitaire.ts:124-135 | such a run has at most 13 cards, and 13 only as A…K |
| `Rules.TableauRuleKeepsRun` | src/lib/solitaire.ts:137-149 | placing an alternating descending run by the tableau rule extends the alternating run below it; an empty pile takes only a King |
| `Rules.EmptyFoundationRefusesTwo` | src/lib/solitaire.ts:128 | an empty foundation refuses a face-up Two |
| `Rules.RedSixOnBlackSeven` | src/lib/solitaire.ts:144-148 | a face-up red Six goes on a face-up black Seven |
| `Deal.RemainingAtStart` | src/lib/solitaire.ts:76-84 | the deal takes 28 cards |
| `Deal.ShuffledDeck` | src/lib/solitaire.ts:71 | the shuffled deck is a permutation of the 52 cards |
| `Deal.CanonicalDeckFaceDown` | src/lib/solitaire.ts:49 | every card of a new deck is face down |
| `Deal.PermutationKeepsFaceDown` | src/lib/solitaire.ts:59-68 | reordering face-down cards leaves them all face down |
| `Deal.ShuffledDeckFacts` | src/lib/solitaire.ts:70-71 | the shuffled deck is face down and holds the identities of the new deck |
| `Deal.DealStarts` | src/lib/solitaire.ts:72-76 | before the first row every pile is empty, the whole deck is still to deal and no card is lost |
| `Deal.RemainingBounds` | src/lib/solitaire.ts:76-84 | before row r the deal has popped at most 28 cards, and row r still pops 7 - r |
| `Deal.DealDepth` | src/lib/solitaire.ts:76-84 | the card row r deals onto pile c is popped after fewer than 28 others, so it comes from the deck's last 28 |
| `Deal.DealtCard` | src/lib/solitaire.ts:76-84 | the card row r leaves on pile c is the deck card `DealDepth(r, c)` places from the end, with that card's identity, turned up when it opens the row |
| `Deal.DealtCardOfFaceDown` | src/lib/solitaire.ts:77-82 | from a face-down deck the dealt card is the deck card itself, face up exactly when it opens its row |
| `Deal.DealRowPositions` | src/lib/solitaire.ts:77-83 | row i puts its dealt card on top of piles i..6 and leaves every card dealt before in place |
| `Deal.RowCard` | src/lib/solitaire.ts:77-82 | the card dealt to pile c in row i is the deck's (c - i)-th card from the end, turned up exactly on the diagonal |
| `Deal.DealRow` | src/lib/solitaire.ts:77-83 | one row pops one card onto each pile from i to 6 and leaves the other piles unchanged |
| `Deal.DealTableau` | src/lib/solitaire.ts:76-84 | after the seven rows pile j holds j + 1 cards, only its top face up, card r of pile c being `DealtCard(deck, r, c)`; the remaining deck is the prefix left over; no card is lost |
| `Deal.InitializeGame` | src/lib/solitaire.ts:70-98 | a fresh game holds all 52 cards once; the stock holds the 24 undealt cards of the shuffled deck, face down; the waste and four foundations are empty; tableau pile j holds j + 1 cards and shows only its top card; card k of pile j is the shuffled deck's card `DealDepth(k, j)` places from the end, face up exactly when k = j; moves are 0, the start time is `now`, there is no end time and the game is not won |
| `Moves.DrawCard` | src/lib/solitaire.ts:100-122 | `drawCard`: the stock's top card goes face up onto the waste, or an empty stock takes back the waste, or nothing happens (its properties are `Moves.DrawCardFrame`, `Moves.DrawCardConservesCards`, `Moves.DrawManyShape` and `Moves.StockCycleRestores`) |
| `Moves.Recycled` | src/lib/solitaire.ts:107 | the recycled stock is the waste reversed, every card face down |
| `Moves.DrawCardFrame` | src/lib/solitaire.ts:100-122 | drawing leaves foundations, tableau, clock and win flag alone; it is a no-op exactly when stock and waste are both empty, and otherwise counts one move |
| `Moves.DrawCardConservesCards` | src/lib/solitaire.ts:100-122 | drawing and recycling neither lose nor duplicate a card |
| `Moves.DrawManyShape` | src/lib/solitaire.ts:113-121 | k draws move the stock's last k cards onto the waste, face up, in drawing order |
| `Moves.StockCycleRestores` | src/lib/solitaire.ts:100-122 | drawing a whole face-down stock and recycling restores the stock exactly |
| `Moves.IndexOfId` | src/lib/solitaire.ts:174 | `findIndex`: the first position with the id, or -1 when there is none |
| `Moves.FindIndex` | src/lib/solitaire.ts:174 | the search loop returns `IndexOfId` |
| `Moves.Spliced` | src/lib/solitaire.ts:175 | `splice(start)` keeps a prefix: `start` cards for a non-negative start, `length + start` (at least 0) for a negative one |
| `Moves.Popped` | src/lib/solitaire.ts:170-172 | `pop` drops the last card and leaves an empty pile empty |
| `Moves.Revealed` | src/lib/solitaire.ts:178-180 | the new top card of a tableau pile is turned face up; the rest is unchanged |
| `Moves.RemoveCards` | src/lib/solitaire.ts:169-181 | popping the waste or foundation, or splicing the tableau pile and turning up its new top, computes the specified removal |
| `Moves.PlaceCards` | src/lib/solitaire.ts:184-188 | pushing the first card onto a foundation, or appending the cards to a tableau pile, computes the specified placement |
| `Moves.MoveCard` | src/lib/solitaire.ts:151-197 | the imperative transition computes `Moved`: no-op for no cards; otherwise one more move, source cut, destination extended, win stamped |
| `Moves.Moved` | src/lib/solitaire.ts:151-197 | `moveCard` as a function: nothing for no cards, otherwise cut the source, extend the destination, count a move and stamp the win (its properties are the `Moves.Moved…` lemmas below) |
| `Moves.MovedFrame` | src/lib/solitaire.ts:159-194 | every pile other than source and destination is unchanged, and the stock is never touched |
| `Moves.MovedEnds` | src/lib/solitaire.ts:168-188 | the waste or foundation source loses its top; a foundation destination gains only the first card; a tableau destination gains all the cards |
| `Moves.MovedCutsTableau` | src/lib/solitaire.ts:173-180 | a tableau source is cut at the first card with the moved id, and its new top is turned up |
| `Moves.MovedAbsentCardDropsTop` | src/lib/solitaire.ts:174-175 | when the id is absent, `findIndex` gives -1 and `splice(-1)` removes the top card |
| `Moves.TopIsProperSource` | src/lib/solitaire.ts:217-229 | moving a tableau top card alone removes exactly that card |
| `Moves.MovedConservesCards` | src/lib/solitaire.ts:151-197 | a move of the cards the source actually gives up, onto a pile that takes them all, keeps every card exactly once |
| `AutoFinish.AcceptingFoundation` | src/lib/solitaire.ts:220-223 | the first foundation from a start index whose top accepts the card, or the count when none does |
| `AutoFinish.NextAutoMove` | src/lib/solitaire.ts:213-256 | the move one loop round makes, tableau before waste, is always applicable |
| `AutoFinish.ApplyEffect` | src/lib/solitaire.ts:224-251 | one auto move puts the card on its foundation, removes it from the waste or from its pile (turning the new top up), and counts a move |
| `AutoFinish.ApplyShrinks` | src/lib/solitaire.ts:209-257 | every auto move takes a card off stock, waste or tableau, so the loop ends |
| `AutoFinish.AutoRun` | src/lib/solitaire.ts:209-257 | the loop's moves, up to the first pass that moves nothing (its properties are the `AutoFinish.AutoRun…` lemmas) |
| `AutoFinish.AutoCompleted` | src/lib/solitaire.ts:204-266 | `autoComplete`: the run followed by the win stamp (its properties are `AutoFinish.AutoCompletedOutcome`) |
| `AutoFinish.FirstTableauMove` | src/lib/solitaire.ts:213-236 | the first pile, from a start index, whose face-up top goes to a foundation, with the first foundation that accepts it; no earlier pile's top goes up |
| `AutoFinish.FindFoundation` | src/lib/solitaire.ts:220-233 | the inner loop finds the first accepting foundation |
| `AutoFinish.TryPile` | src/lib/solitaire.ts:214-235 | one round of the pile loop moves exactly when the pile's face-up top fits a foundation, and then makes the first such move; otherwise the state is unchanged |
| `AutoFinish.FirstTableauMoveNoneFrom` | src/lib/solitaire.ts:213-236 | the pile search from a given pile finds nothing exactly when no pile from there on has a top that goes up |
| `AutoFinish.FirstTableauMoveNone` | src/lib/solitaire.ts:213-236 | the pile search finds nothing exactly when no face-up tableau top fits any foundation |
| `AutoFinish.TableauPass` | src/lib/solitaire.ts:213-236 | the tableau pass makes a move exactly when some face-up top fits a foundation, and makes the first such move |
| `AutoFinish.WastePass` | src/lib/solitaire.ts:239-256 | when no tableau move exists, the waste pass makes the waste top's move if there is one |
| `AutoFinish.AutoComplete` | src/lib/solitaire.ts:204-266 | the loop computes the specified run of moves followed by the win stamp |
| `AutoFinish.NoAutoMoveIffStuck` | src/lib/solitaire.ts:209-257 | no auto move exists exactly when no face-up tableau top and no waste top fits any foundation |
| `AutoFinish.AutoRunEndsStuck` | src/lib/solitaire.ts:209-257 | the loop stops only when stuck |
| `AutoFinish.AutoRunConservesCards` | src/lib/solitaire.ts:204-257 | auto-finish keeps every card exactly once |
| `AutoFinish.AutoRunExtendsFoundations` | src/lib/solitaire.ts:204-257 | foundations only grow, and the tableau keeps its piles |
| `AutoFinish.NextAutoMoveAccepts` | src/lib/solitaire.ts:223-245 | the auto move's card is face up and accepted by its foundation |
| `AutoFinish.AutoRunKeepsFoundationRuns` | src/lib/solitaire.ts:204-257 | foundations that are Ace-up suit runs stay so |
| `AutoFinish.AutoRunKeepsEndTime` | src/lib/solitaire.ts:190-194 | during the run an end time already stamped is never overwritten, and the only end time the run can set is `now` |
| `AutoFinish.ApplyStampsOnlyOnWin` | src/lib/solitaire.ts:190-194 | a move of the run changes the end time only when it completes every foundation |
| `AutoFinish.WonRunStaysWon` | src/lib/solitaire.ts:204-257 | once every foundation is a full run from the Ace, the run cannot add a card to one, so the game stays won |
| `AutoFinish.AutoRunStampsOnlyOnWin` | src/lib/solitaire.ts:204-257 | with foundations built by the rule, the run changes the end time only when it ends won |
| `AutoFinish.AutoCompletedOutcome` | src/lib/solitaire.ts:204-266 | the result is stuck, its win flag equals the win test, a complete deck stays complete, an end time already stamped survives, the only new end time is `now`, and, when every foundation is a same-suit run from the Ace, a new end time is set only if the result is won |
| `PileView.DragSelection` | src/components/game/Pile.tsx:31-47 | the cards a press hands over: the top card alone from the waste or a foundation, the run from the first card with the id on a tableau pile when it is face up, nothing from the stock (its properties are the three lemmas below) |
| `PileView.TopOnlyDrag` | src/components/game/Pile.tsx:34-38 | on the waste or a foundation a drag starts exactly when the touched card has the top's id, and drags that card alone |
| `PileView.TableauRunDrag` | src/components/game/Pile.tsx:39-46 | on a tableau pile a drag starts exactly when the first card with the id is face up, and takes the suffix from it to the top |
| `PileView.NoDragFromStockOrFaceDown` | src/components/game/Card.tsx:33-38 | the stock never starts a drag, and a face-down card never does |
| `PileView.SelectionIsProperSource` | src/components/game/Pile.tsx:31-47 | whatever a pile hands over is exactly what `moveCard` later removes from it |
| `PileView.PlaceholderOnlyOnEmptyStock` | src/components/game/Pile.tsx:101-108 | the id-less placeholder click comes from an empty stock and from nothing else |
| `PileView.MouseEnter` | src/components/game/Pile.tsx:49-53 | a pile reports an enter exactly when it has a hover handler, and then reports its own kind and index as hovered |
| `PileView.MouseLeave` | src/components/game/Pile.tsx:55-59 | a pile reports a leave exactly when it has a hover handler, and then reports its own kind and index as no longer hovered |
| `History.Committed` | src/components/game/GameBoard.tsx:97-100 | saving appends the state before the action to the history and drops the redo list |
| `History.Undone` | src/components/game/GameBoard.tsx:102-109 | `undo`: nothing without history, otherwise the newest snapshot becomes current and the old current heads the redo list (its properties are the lemmas below) |
| `History.Redone` | src/components/game/GameBoard.tsx:111-128 | `redo`: nothing without a redo list, otherwise its head becomes current and the old current ends the history |
| `History.UndoRedoKeepLine` | src/components/game/GameBoard.tsx:102-128 | undo and redo never lose or reorder a snapshot; they move one step, or none at an end |
| `History.RedoAfterUndo` | src/components/game/GameBoard.tsx:102-128 | redo right after undo restores everything |
| `History.UndoAfterRedo` | src/components/game/GameBoard.tsx:102-128 | undo right after redo restores everything |
| `History.UndoAfterCommit` | src/components/game/GameBoard.tsx:97-109 | undo right after an action returns to the state before it, with the action's result as the only redo |
| `History.UndoneTimesShape` | src/components/game/GameBoard.tsx:102-109 | k undos move k snapshots to the redo list without losing any |
| `History.RedoUndoesUndoTimes` | src/components/game/GameBoard.tsx:102-128 | as many redos as undos restore the timeline |
| `Board.TableauTopWithId` | src/components/game/GameBoard.tsx:158-160 | the first tableau pile whose top has the id, or the count when none has |
| `Board.ClickSource` | src/components/game/GameBoard.tsx:147-170 | a click's source pile is the waste or a tableau pile of the state |
| `Board.ClickOutcome` | src/components/game/GameBoard.tsx:130-174 | what a click commits: a draw or recycle, a move to a foundation, or nothing (characterised by `Board.ClickCommitsIff`) |
| `Board.ClickCommitsIff` | src/components/game/GameBoard.tsx:130-174 | a click changes the game exactly when it hits the stock top, or the placeholder/id-less card with a refillable stock, or a face-up top of the waste or a tableau pile that some foundation accepts |
| `Board.StockClickDraws` | src/components/game/GameBoard.tsx:131-141 | a click on the stock draws, except with both stock and waste empty |
| `Board.FoundationClickMoves` | src/components/game/GameBoard.tsx:143-173 | a committed foundation click puts the clicked card alone on the first accepting foundation, counts a move, leaves the stock alone, and takes the card off the waste when it tops the waste |
| `Board.ClickSourceIsProper` | src/components/game/GameBoard.tsx:147-170 | in a complete game the clicked pile gives up exactly the clicked card |
| `Board.FoundationClickKeepsCards` | src/components/game/GameBoard.tsx:143-173 | a committed foundation click keeps every card exactly once |
| `Board.ClickKeepsCards` | src/components/game/GameBoard.tsx:130-174 | a click keeps every card exactly once |
| `Board.ClickKeepsShape` | src/components/game/GameBoard.tsx:130-174 | a click keeps the four foundations and seven tableau piles |
| `Board.DropOutcome` | src/components/game/GameBoard.tsx:208-252 | what a release commits: the move, when there is a target and its rule accepts the dragged cards, otherwise nothing |
| `Board.DropKeepsFoundationRun` | src/components/game/GameBoard.tsx:224-246 | an accepted drop on a foundation keeps it an Ace-up suit run |
| `Board.DropKeepsTableauRun` | src/components/game/GameBoard.tsx:230-246 | an accepted drop of an alternating run on a tableau pile keeps the run below it alternating |
| `Board.DropKeepsCards` | src/components/game/GameBoard.tsx:208-252 | a drop of a pile's own selection keeps every card exactly once |
| `Board.DropKeepsShape` | src/components/game/GameBoard.tsx:208-252 | a drop keeps the number of piles |
| `Board.Hovered` | src/components/game/GameBoard.tsx:254-262 | `handleDropTargetHover` on a report: ignored without a drag or without a report; an enter targets the pile; a leave clears only the pile that is the target |
| `Board.HoverFollowsCursor` | src/components/game/GameBoard.tsx:254-262 | while dragging the target is the last foundation or tableau pile entered; leaving another pile does not clear it; leaving it clears it; the stock and waste never change it; without a drag nothing changes |
| `Board.TargetNeverStockOrWaste` | src/components/game/GameBoard.tsx:311-358 | only the foundation and tableau piles get a hover handler, so the drop target is never the stock or the waste |
| `Board.AutoCompleteKeepsShape` | src/components/game/GameBoard.tsx:264-267 | auto-complete keeps the number of piles |
| `Board.GameBoard.constructor` | src/components/game/GameBoard.tsx:20-30 | the board starts on a freshly dealt game (all that `Deal.InitializeGame` promises: 52 cards once, the deal shape, the shuffled card at every tableau position, the clock started at `now`, not won) with empty history and redo list and no drag |
| `Board.GameBoard.StartNewGame` | src/components/game/GameBoard.tsx:86-95 | a new deal with all that `Deal.InitializeGame` promises (including the shuffled card at every tableau position), with empty history and redo list and the drag cleared |
| `Board.GameBoard.SaveToHistory` | src/components/game/GameBoard.tsx:97-100 | the current state is appended to the history and the redo list is emptied |
| `Board.GameBoard.Undo` | src/components/game/GameBoard.tsx:102-109 | the timeline steps back one snapshot, or stays when the history is empty |
| `Board.GameBoard.Redo` | src/components/game/GameBoard.tsx:111-128 | the timeline steps forward one snapshot, or stays when the redo list is empty |
| `Board.GameBoard.FindFoundationMove` | src/components/game/GameBoard.tsx:143-173 | the nested search loops compute the specified foundation click |
| `Board.GameBoard.ClickDispatch` | src/components/game/GameBoard.tsx:130-174 | the click handler's branches compute the specified click outcome |
| `Board.GameBoard.HandleCardClick` | src/components/game/GameBoard.tsx:130-174 | a committing click saves the old state and installs the outcome; any other click changes nothing |
| `Board.GameBoard.HandleCardDragStart` | src/components/game/GameBoard.tsx:176-200 | with cards, a board and the card's element, the drag records cards, source, cursor position and the cursor's offset in the card; otherwise nothing changes; the cards are the pile's selection, so the open drag is what the pile gives up |
| `Board.GameBoard.HandleMouseMove` | src/components/game/GameBoard.tsx:202-206 | during a drag the position follows the cursor; otherwise nothing changes |
| `Board.GameBoard.HandleMouseUp` | src/components/game/GameBoard.tsx:208-252 | the drag always ends; a drop that the target's rule accepts is committed as a move from the drag source, and every snapshot still holds the 52 cards once |
| `Board.GameBoard.HandleDropTargetHover` | src/components/game/GameBoard.tsx:254-262 | the drop target follows the hover reports of foundation and tableau piles during a drag and nothing else changes |
| `Board.GameBoard.HandleAutoComplete` | src/components/game/GameBoard.tsx:264-267 | the current state is saved and replaced by its auto-completion |
| `Stats.JsRem` | src/components/game/Stats.tsx:36 | JavaScript's `%` by a positive divisor is the mathematical remainder for a non-negative dividend, and lies in -(b-1)..0 for a negative one |
| `Stats.JsRemOdd` | src/components/game/Stats.tsx:36 | negating the dividend negates the remainder, so the negative side is fixed by the non-negative one |
| `Stats.NatToString` | src/components/game/Stats.tsx:37 | `toString` of a non-negative integer is a non-empty digit string without a leading zero |
| `Stats.PadStart` | src/components/game/Stats.tsx:37 | `padStart` reaches the width with the fill in front and never truncates |
| `Stats.ParseNatToString` | src/components/game/Stats.tsx:37 | printed digits read back as the number |
| `Stats.MinutesAndSeconds` | src/components/game/Stats.tsx:34-38 | for a non-negative count, minutes times sixty plus seconds gives the count back, with the seconds in 0..59 |
| `Stats.FormatTime` | src/components/game/Stats.tsx:34-38 | `formatTime`: floored minutes and the JavaScript remainder, each padded to two digits, joined by ':' (read back by `Stats.FormatTimeRoundTrip`) |
| `Stats.FormatTimeRoundTrip` | src/components/game/Stats.tsx:34-38 | below 6000 seconds the clock reads `mm:ss`, and reading it back gives the seconds |
| `Stats.ElapsedSeconds` | src/components/game/Stats.tsx:19-32 | the timer's value: none before a truthy start time, the frozen difference once there is a truthy end time, otherwise the whole seconds since the start (behaviour in `Stats.ElapsedBehaviour`) |
| `Stats.ElapsedBehaviour` | src/components/game/Stats.tsx:19-32 | no value before a start time; a frozen value once there is an end time; otherwise the whole seconds since the start, never decreasing as time passes |

## Left out

- Advertising, toasts and the win animation are not modelled. This covers the ad service, the `setTimeout` interstitial, the `isWinAnimationActive` and `gameCount` state, the ad gate in `newGame`, and the rewarded-ad hint that `redo` shows when the redo list is empty. They are side effects outside the game state; `Redo` models that path as "no change".
- Rendering is not modelled: class names, card layout and the dragged-card overlay.
- DOM geometry becomes parameters of `Board.GameBoard.HandleCardDragStart`:
  - `boardRef.current?.getBoundingClientRect()` is the flag `boardFound`;
  - the card element's corner found by `querySelector` is `cardCorner`.
- `Math.random` becomes the sequence `randoms`, and `Date.now()` becomes the parameter `now`.
- `AutoFinish.AutoComplete`: the source reads the clock at every move that wins and again at the final stamp; the model uses one instant `now` for the whole run.
- The document-level `mousemove`/`mouseup` listener registration is not modelled. The handlers act on the component's current fields, not on a stale closure of an earlier render.
- `Board.GameBoard.HandleMouseUp` commits an accepted drop, as the handler's code intends. The program as written does not. Its listeners are registered by the effect keyed on `draggedCards` (`GameBoard.tsx`, lines 50-59), so the `mouseup` listener is the handler of the render where the drag started. In that render `dropTarget` is still null, so the test `if (dropTarget)` on line 216 fails and a drop never commits. The model does not capture this stale read.
- `Board.GameBoard.HandleCardClick`, `Board.GameBoard.Undo`, `Board.GameBoard.Redo` and `Board.GameBoard.HandleAutoComplete` require that no drag is open. A drag holds the mouse button from the card's `mousedown` to the document's `mouseup`, and that `mouseup` ends the drag before the browser delivers any click. So no click, button or card, reaches these handlers during a drag. A game change during an open drag would leave the drag naming cards of an older state, and the class invariant does not cover that.
- The pile components are created only for real piles, so hover reports and drag starts always name an existing pile. `Board.GameBoard.HandleDropTargetHover` and `Board.GameBoard.HandleCardDragStart` require `ValidRef` for that reason.
- The clock's `setInterval`/`clearInterval` timer is not modelled. `Stats.ElapsedSeconds` models the value each tick computes.
- Aliasing of card objects is not modelled. `moveCard` flips the new tableau top in place (`solitaire.ts`, line 179), and that object is shared with the state saved for undo. In the model cards are values, so an undo restores the card face down, as the saved state describes it.
- The `draggedCards` and `sourcePile` fields of `GameState` are never read or written by the core. They are left out of the state datatype.
- `saveToHistory` ignores its parameter and pushes the current state. `Board.GameBoard.SaveToHistory` has no parameter for that reason.
- `Stats.NatToString`: `Number.prototype.toString` switches to exponent notation from 10^21. The model always prints plain digits.
- `Stats.MinutesAndSeconds` is stated for non-negative counts only. JavaScript's truncating `%` splits a negative count differently; `Stats.FormatTime` still models it exactly through `Stats.JsRem`.
- `Stats.FormatTimeRoundTrip` is stated below 100 minutes. Above that the minutes field has more than two digits.
- The "Get Hint" button in `Controls.tsx` calls `redo`. It is covered by `Board.GameBoard.Redo`, and the button itself is not modelled.

# Board state machine of a card-game table simulator

This project models the board of a solo-play table for a trading card game. The
board (`GameState`) has five ordered zones: deck, hand, graveyard, extra deck and
free zone. It also has seven single-card slots (three monster, three spell and one
field) and a map from card id to orientation (rotation and face-down flag). On top
of the board sits the board component. It keeps the current board, a stack of
earlier boards for undo and the open context menu. Its handlers move cards by drag
and drop, draw, shuffle, return the free zone to the deck, send the top card to the
graveyard, turn cards, undo, and reset. The opening deal after a deck is cut is
modelled too.

The modules follow the source:

- `Types` is the snapshot data model of `src/types.ts`, plus card accounting (the
  multiset of cards on the board) and the uniqueness invariant: no card twice, no
  two cards with one id.
- `Location` is `findCardLocation`: a function, and the two loops of the source
  proved equal to it.
- `CardLists` holds the list operations of the drag handler: `filter`,
  `findIndex`, `splice` and `arrayMove`.
- `Transfer` is the drag-end updater. `Drop` specifies it, and the method
  `DragEndUpdate` edits a copy of the board step by step, as the handler does.
- `Orientation` holds `getCardState`, the context menu, the display toggle and
  the face-down set.
- `DeckOps` holds the deck buttons.
- `Setup` holds `emptyGameState`, `handleCutComplete` and the reshuffled restart.
- `Board` is the component as a class `FieldLayout`. Its fields are `gameState`,
  `history` and `contextMenu`. Each handler records the board it replaces and
  keeps the invariant `Valid()`: ids unique and rotations 0 or -90 on the shown
  board, the starting board and every recorded board.

Behaviour kept as the code has it:

- A drag whose source is unknown, or whose target slot is taken, still pushes a
  history entry. The entry is pushed before the updater's guards run.
- Both container lookups read the same board the updater receives.
- After a page reload the starting board is the empty board. Either reset then
  empties the table (`ResetsAfterReload`).

## Model

| member | source | states |
|---|---|---|
| Types.ZoneNamed | src/types.ts:16 | a drop-target id names at most one of the twelve zones; when it names none, no zone has that name |
| Types.NameRoundTrip | src/types.ts:16 | every zone's identifier parses back to that zone, so zone identifiers are distinct |
| Types.Zones.Set | src/types.ts:25 | writing one slot of the seven-key record sets that slot and leaves the other six as they were |
| Types.WithPile | src/types.ts:19-27 | writing one ordered zone leaves the other four, the slots and the state map unchanged |
| Types.WithSlot | src/types.ts:19-27 | writing one slot leaves the other slots, the ordered zones and the state map unchanged |
| Types.AllCardsBag | src/components/FieldLayout.tsx:206 | the list the drag handler searches holds exactly the board's cards |
| Types.PileBag | src/types.ts:19-24 | replacing an ordered zone changes the board's cards by exactly the old and the new contents |
| Types.SlotBag | src/types.ts:25 | writing a slot changes the board's cards by exactly the old and the new occupant |
| Types.MovedBetween | src/components/FieldLayout.tsx:253-319 | when only two ordered zones change and their cards together stay the same, the board's cards stay the same |
| Types.ClearBag | src/types.ts:19-27 | emptying a zone removes exactly that zone's cards from the board |
| Types.UniqueMeansOneZone | src/types.ts:19-27 | on a board with unique ids, two cards with the same id are the same card in the same zone |
| Location.Locate | src/components/FieldLayout.tsx:140-149 | the location is a zone holding the id, and no zone earlier in the order deck, hand, grave, extra, free, monster1..field holds it; none exactly when no zone holds it |
| Location.LocateIsFirst | src/components/FieldLayout.tsx:140-149 | a zone that holds the id, with no earlier zone holding it, is the location found |
| Location.FindCardLocation | src/components/FieldLayout.tsx:140-149 | the loop over the ordered zones and then the slot keys, with early returns, returns the location `Locate` specifies |
| Location.First | src/components/FieldLayout.tsx:206 | `find` by id: the card at the first position holding the id (the position `findIndex` reports), or none exactly when no card has it |
| Location.FindCard | src/components/FieldLayout.tsx:206 | the drag handler's lookup is `First` over all the board's cards in search order; `FindCardIn` and `FindCardIsCard` prove what it finds |
| Location.FindCardIn | src/components/FieldLayout.tsx:206-207 | when a zone holds the id the lookup finds a card with it, so the `!card` guard never fires after a located source |
| Location.FindCardIsCard | src/components/FieldLayout.tsx:206 | on a board with unique ids, looking up a card's id finds that card |
| Location.UniqueLocate | src/components/FieldLayout.tsx:140-149 | on a board with unique ids, a card's id is located in the zone that holds the card |
| CardLists.RemoveId | src/components/FieldLayout.tsx:216 | `filter` by id keeps exactly the cards with other ids, each as often as it occurs, and adds none |
| CardLists.RemoveAbsent | src/components/FieldLayout.tsx:216 | filtering out an id no card has leaves the list unchanged |
| CardLists.RemoveIdAt | src/components/FieldLayout.tsx:216 | in a list with distinct ids, filtering out the id of the card at position k is removing position k, so the other cards keep their order |
| CardLists.RemoveUnique | src/components/FieldLayout.tsx:216 | in a list with distinct ids, filtering out a card's id removes exactly that card |
| CardLists.IndexOf | src/components/FieldLayout.tsx:194-195 | `findIndex`: the first position holding the id, or -1 exactly when no card has it |
| CardLists.InsertAt | src/components/FieldLayout.tsx:236 | `splice(k, 0, x)`: the list grows by one, `x` at `k`, the elements before kept and the rest shifted by one |
| CardLists.ArrayMove | src/components/FieldLayout.tsx:199 | `arrayMove` keeps the length and puts the moved element at the target position |
| CardLists.RemoveInserted | src/components/FieldLayout.tsx:236 | removing at the position of an insertion gives back the list |
| CardLists.InsertBag | src/components/FieldLayout.tsx:236 | an insertion adds exactly the inserted card |
| CardLists.ArrayMovePermutes | src/components/FieldLayout.tsx:199 | `arrayMove` is a permutation |
| CardLists.ArrayMoveKeepsOthers | src/components/FieldLayout.tsx:199 | `arrayMove` keeps the relative order of all other elements |
| CardLists.ArrayMoveInverse | src/components/FieldLayout.tsx:199 | moving back from the target position to the source position undoes a move |
| Transfer.Destination | src/components/FieldLayout.tsx:176 | the container of the drop target is the location of the card with that id when there is one, otherwise the zone with that name |
| Transfer.Drop | src/components/FieldLayout.tsx:173-248 | the updater returns the board unchanged when the source is unknown or the target slot is occupied |
| Transfer.DragEndUpdate | src/components/FieldLayout.tsx:173-248 | the updater as written, with guards, in-place reorder and step-by-step edit of a copy, yields `Drop` |
| Transfer.Lift | src/components/FieldLayout.tsx:209-219 | the card leaves its zone: `filter` by id on an ordered zone, or the slot emptied and the card's state reset; `LiftKeepsPile`, `LiftKeepsSlot`, `LiftStates`, `LiftBag`, `LiftedPile` and `LiftRemoves` are proved about it |
| Transfer.Inserted | src/components/FieldLayout.tsx:221-240 | where the card enters an ordered zone: top or bottom of the deck, after the target card or at the end elsewhere; `DropOntoDeckCard`, `PlaceAtEnd`, `PlaceAfter` and `DropAfterCard` are proved about it |
| Transfer.Place | src/components/FieldLayout.tsx:220-246 | the card enters the target: inserted into an ordered zone, or put into the slot with the default state; `PlaceStates`, `PlaceBag` and `PlaceInSlot` are proved about it |
| Transfer.LiftCard | src/components/FieldLayout.tsx:209-219 | resetting the state when leaving a slot, then removing the card from its zone, yields the lift |
| Transfer.PlaceCard | src/components/FieldLayout.tsx:220-246 | inserting into an ordered zone, or filling the slot and resetting the card's state, yields the placement |
| Transfer.InsertCard | src/components/FieldLayout.tsx:221-240 | `unshift` or `push` into the deck, `splice` after the target card or `push` into other ordered zones, yields the insertion |
| Transfer.LiftKeepsPile | src/components/FieldLayout.tsx:214-219 | removing the card from its zone leaves every other ordered zone as it was |
| Transfer.LiftKeepsSlot | src/components/FieldLayout.tsx:214-219 | removing the card from its zone leaves every other slot as it was |
| Transfer.LiftStates | src/components/FieldLayout.tsx:209-212 | the lift resets the card's state exactly when it leaves a slot |
| Transfer.PlaceStates | src/components/FieldLayout.tsx:241-246 | the placement resets the card's state exactly when it enters a slot |
| Transfer.LiftBag | src/components/FieldLayout.tsx:214-219 | on a board with unique ids, the lift removes exactly the dragged card from the board |
| Transfer.PlaceBag | src/components/FieldLayout.tsx:221-246 | placing into an ordered zone or an empty slot adds exactly the card |
| Transfer.ReorderBag | src/components/FieldLayout.tsx:192-201 | a reorder keeps the board's cards |
| Transfer.MoveBag | src/components/FieldLayout.tsx:205-247 | lifting a card out of its zone and placing it elsewhere keeps the board's cards |
| Transfer.DropConserves | src/components/FieldLayout.tsx:173-248 | every drop keeps the multiset of cards on the board and keeps each id in exactly one zone or slot |
| Transfer.IndexOfDistinct | src/components/FieldLayout.tsx:194-195 | in a zone with distinct ids, `findIndex` of the card at position k is k |
| Transfer.DropReorder | src/components/FieldLayout.tsx:192-201 | dropping the card at position i of an ordered zone on the card at position j applies `arrayMove(i, j)` to that zone and changes no other zone, slot or state |
| Transfer.DropOntoDeckCard | src/components/FieldLayout.tsx:226-228 | a card from another zone dropped on a deck card goes on top of the deck |
| Transfer.LiftedPile | src/components/FieldLayout.tsx:214-216 | on a board with unique ids, after the lift every ordered zone is its old contents without the dragged card |
| Transfer.PlaceAtEnd | src/components/FieldLayout.tsx:229-238 | with no target card in an ordered zone, the placement appends |
| Transfer.DropOnZoneArea | src/components/FieldLayout.tsx:221-240 | a card dropped on an ordered zone's area ends up last in that zone (the bottom for the deck), also when it came from that zone |
| Transfer.PlaceAfter | src/components/FieldLayout.tsx:234-236 | in an ordered zone other than the deck, the card is inserted right after the target card |
| Transfer.DropAfterCard | src/components/FieldLayout.tsx:232-236 | a card from another zone dropped on the card at position k of a non-deck ordered zone lands at position k+1, with the rest of the zone kept in order |
| Transfer.LiftRemoves | src/components/FieldLayout.tsx:214-219 | after the lift no card with the dragged id is left in its source zone |
| Transfer.PlaceInSlot | src/components/FieldLayout.tsx:241-246 | filling a slot puts the card there with the default state and changes no other zone |
| Transfer.MoveToSlot | src/components/FieldLayout.tsx:205-246 | a card moved into another zone's slot is in that slot with the default state and gone from its source |
| Transfer.DropOnSlot | src/components/FieldLayout.tsx:241-246 | a card dropped on an empty slot occupies it with the default state and is gone from where it was |
| Transfer.DropOrientation | src/components/FieldLayout.tsx:209-246 | after an accepted drop the dragged card's state is reset when it leaves or enters a slot, and every state is untouched by a move between ordered zones |
| Transfer.MoveStates | src/components/FieldLayout.tsx:209-246 | the move case of the orientation rule |
| Orientation.GetCardState | src/components/FieldLayout.tsx:411 | the recorded state of a card, or rotation 0 face up when none is recorded |
| Orientation.ShownRotationValid | src/components/FieldLayout.tsx:411 | when every recorded rotation is 0 or -90, so is every state shown |
| Orientation.OpenContextMenu | src/components/FieldLayout.tsx:354-358 | a menu opens only for a non-empty id, and the location it records is where that card is, always a slot |
| Orientation.ContextMenuOnSlots | src/components/FieldLayout.tsx:354-358 | for a card on a board with unique ids, the menu opens exactly when the card is in a slot, on that card and slot |
| Orientation.Toggled | src/components/FieldLayout.tsx:379-393 | one card's display toggle, a cycle for monsters and a face flip for spell and field cards; `MonsterCycle`, `SpellFlip`, `ToggledRotation` and `ToggleState` are proved about it |
| Orientation.ToggleState | src/components/FieldLayout.tsx:376-393 | editing a copy of the recorded (or default) state field by field yields the toggled state |
| Orientation.MonsterCycle | src/components/FieldLayout.tsx:379-390 | a monster toggles to face-up defence from face-up attack and to face-up attack otherwise; after the first toggle it alternates |
| Orientation.SpellFlip | src/components/FieldLayout.tsx:391-393 | a spell or field card's toggle flips only the face, and two toggles undo each other |
| Orientation.ToggledRotation | src/components/FieldLayout.tsx:379-393 | the toggle writes only rotation 0 or -90 |
| Orientation.ToggleDisplay | src/components/FieldLayout.tsx:374-397 | the menu card shows the toggle of the state it showed before; only that card's state changes, and it is recorded afterwards even when it was absent |
| Orientation.ToggleDisplayRepeated | src/components/FieldLayout.tsx:379-393 | two toggles of a spell or field card show every card as before; a monster's shown state alternates from the first toggle on |
| Orientation.ToggleDisplayUpdate | src/components/FieldLayout.tsx:374-397 | the updater as written yields `ToggleDisplay` |
| Orientation.SetFaceDown | src/components/FieldLayout.tsx:406 | the card's state becomes face-down defence and every other card's shown state is unchanged |
| Orientation.OrientationKeepsRotations | src/components/FieldLayout.tsx:370-408 | both orientation actions keep every recorded rotation 0 or -90 |
| Orientation.OrientationKeepsCards | src/components/FieldLayout.tsx:370-408 | both orientation actions leave every card where it was |
| Orientation.MonsterWalkthrough | src/components/FieldLayout.tsx:370-408 | a fresh monster toggles to face-up defence, back to attack, is set face down, and toggles to attack |
| DeckOps.Draw | src/components/FieldLayout.tsx:253-260 | a draw is refused exactly when the deck has fewer cards than asked |
| DeckOps.DrawMovesBoundary | src/components/FieldLayout.tsx:253-260 | a draw moves the first `count` deck cards, in order, to the end of the hand; hand then deck is unchanged and nothing else changes |
| DeckOps.DrawTwice | src/components/FieldLayout.tsx:253-260 | drawing a then b cards is drawing a+b cards |
| DeckOps.DrawConserves | src/components/FieldLayout.tsx:253-260 | a draw keeps the board's cards and the uniqueness of ids |
| DeckOps.SmartDrawCount | src/components/FieldLayout.tsx:263-273 | a hand under five is filled to five; otherwise one card is drawn |
| DeckOps.SmartDraw | src/components/FieldLayout.tsx:263-273 | the smart draw is a draw of `SmartDrawCount` cards; `SmartDrawHandSize` and `SmartDrawGuard` are proved about it |
| DeckOps.SmartDrawHandSize | src/components/FieldLayout.tsx:263-273 | after a smart draw the hand holds five cards, or one more than before when it held five or more |
| DeckOps.SmartDrawGuard | src/components/FieldLayout.tsx:263-273 | a smart draw is refused exactly when the deck is too short for it |
| DeckOps.Shuffle | src/components/FieldLayout.tsx:280 | the deck becomes the given reordering of itself |
| DeckOps.ShuffleConserves | src/components/FieldLayout.tsx:276-282 | a shuffle keeps the board's cards and changes nothing but the deck |
| DeckOps.ReturnFreeToTop | src/components/FieldLayout.tsx:285-295 | refused exactly when the free zone is empty |
| DeckOps.ReturnFreeToBottom | src/components/FieldLayout.tsx:298-309 | refused exactly when the free zone is empty |
| DeckOps.ReturnFreeConserves | src/components/FieldLayout.tsx:285-309 | the free zone empties onto the top (or the bottom) of the deck in its order, nothing but the deck and the free zone changes, and the board's cards are kept |
| DeckOps.SendTopToGrave | src/components/FieldLayout.tsx:312-319 | refused exactly when the deck is empty |
| DeckOps.SendTopConserves | src/components/FieldLayout.tsx:312-319 | the deck's top card becomes the graveyard's first card, the rest of both is kept, nothing but the deck and the graveyard changes, and the board's cards are kept |
| Setup.EmptyBoard | src/App.tsx:11-23 | the empty board holds no card and meets the board invariant |
| Setup.InitialFor | src/App.tsx:108 | the starting board is the cut deal when there is one and the empty board otherwise |
| Setup.OpeningHand | src/App.tsx:47 | the opening hand is `slice(0, 4)` of the shuffled list; `HandSize`, `OpeningSplit` and `CutCompleteDeal` are proved about it |
| Setup.OpeningDeck | src/App.tsx:48 | the opening deck is `slice(4)` of the shuffled list; `OpeningSplit` and `CutCompleteDeal` are proved about it |
| Setup.HandSize | src/App.tsx:47-48 | the opening hand has four cards, or all of them when there are fewer |
| Setup.OpeningSplit | src/App.tsx:46-48 | hand then deck is the shuffled list, and the deck is empty when the hand has fewer than four cards |
| Setup.CutComplete | src/App.tsx:45-65 | the cut deal has empty graveyard, free zone and slots, no card states, and the extra deck as given |
| Setup.CutCompleteDeal | src/App.tsx:45-65 | hand then deck is the shuffled main deck, a reordering of it, with the first four (or all) cards in hand; the board holds the main and extra deck and nothing else |
| Setup.CutCompleteUnique | src/App.tsx:45-65 | main and extra cards with distinct ids deal into a board where every id is in exactly one zone |
| Setup.ShuffleReset | src/components/FieldLayout.tsx:117-134 | the restart clears card states and takes graveyard, extra deck, free zone and slots from the starting board |
| Setup.ShuffleResetDeal | src/components/FieldLayout.tsx:117-134 | hand then deck is the reshuffled starting deck and hand, with four (or all) in hand, and the board's cards and the invariant are those of the starting board |
| Setup.ResetsAfterReload | src/App.tsx:108 | with no cut deal in the session, both resets give the empty board |
| Board.ResetKeepsRotations | src/components/FieldLayout.tsx:209-246 | keeping a card's state or resetting it to the default keeps every rotation 0 or -90 |
| Board.DropGood | src/components/FieldLayout.tsx:173-248 | a drop keeps the board invariant |
| Board.OrientationGood | src/components/FieldLayout.tsx:370-408 | both orientation actions keep the board invariant |
| Board.ShuffleResetGood | src/components/FieldLayout.tsx:117-134 | the reshuffled restart of a good starting board is good |
| Board.FieldLayout.constructor | src/components/FieldLayout.tsx:50-77 | mounting shows the saved board, or the starting board when none is saved; the starting-board effect then shows the starting board when its deck is not empty; empty history, no menu. The app mounts the component with the empty board (`App.tsx:32`, `App.tsx:108`), so there the non-empty-deck branch is not taken at mount |
| Board.FieldLayout.SaveHistory | src/components/FieldLayout.tsx:94 | the shown board is pushed onto the history |
| Board.FieldLayout.Commit | src/components/FieldLayout.tsx:94 | a recording handler pushes the shown board and then shows the new one, keeping the invariant |
| Board.FieldLayout.Undo | src/components/FieldLayout.tsx:96-101 | with an empty history nothing changes; otherwise the last recorded board is shown and popped |
| Board.FieldLayout.HandleFullReset | src/components/FieldLayout.tsx:110-114 | the starting board is shown and the history is cleared |
| Board.FieldLayout.HandleShuffleReset | src/components/FieldLayout.tsx:117-134 | the reshuffled restart is shown and the history is cleared, keeping the invariant |
| Board.FieldLayout.HandleDragEnd | src/components/FieldLayout.tsx:163-249 | no target, or a card dropped on itself, changes neither board nor history; otherwise the old board is pushed and the drop applied, even when the drop is refused |
| Board.FieldLayout.HandleDraw | src/components/FieldLayout.tsx:253-260 | a refused draw changes neither board nor history; an accepted one pushes the old board and draws |
| Board.FieldLayout.HandleSmartDraw | src/components/FieldLayout.tsx:263-273 | a draw of the smart-draw count, with the same guard and history rule |
| Board.FieldLayout.HandleShuffle | src/components/FieldLayout.tsx:276-282 | without confirmation nothing changes; with it the old board is pushed and the deck reordered |
| Board.FieldLayout.HandleReturnFreeToTop | src/components/FieldLayout.tsx:285-295 | with an empty free zone nothing changes; otherwise the old board is pushed and the free zone goes on top |
| Board.FieldLayout.HandleReturnFreeToBottom | src/components/FieldLayout.tsx:298-309 | with an empty free zone nothing changes; otherwise the old board is pushed and the free zone goes underneath |
| Board.FieldLayout.HandleSendTopToGrave | src/components/FieldLayout.tsx:312-319 | with an empty deck nothing changes; otherwise the old board is pushed and the top card goes to the graveyard |
| Board.FieldLayout.HandleContextMenu | src/components/FieldLayout.tsx:336-359 | the menu opens on a card in a slot; otherwise the menu stays as it was; the board and history never change |
| Board.FieldLayout.CloseContextMenu | src/components/FieldLayout.tsx:362 | the menu closes and nothing else changes |
| Board.FieldLayout.ToggleDisplayMode | src/components/FieldLayout.tsx:370-399 | without a menu nothing changes; otherwise the old board is pushed, the menu card is toggled and the menu closes |
| Board.FieldLayout.SetFaceDownDefense | src/components/FieldLayout.tsx:402-408 | without a menu nothing changes; otherwise the old board is pushed, the menu card is set face-down defence and the menu closes |
| Board.UndoDrop | src/components/FieldLayout.tsx:94-101 | undo right after a drag onto another target, accepted or refused, restores both the board and the history |
| Board.UndoDraw | src/components/FieldLayout.tsx:94-101 | undo right after an accepted draw restores both the board and the history |
| Board.UndoAfterRefusedDraw | src/components/FieldLayout.tsx:253-254 | a refused draw records nothing, so the undo after it shows the board before the previous action |

## Left out

- Transfer.Drop: requires the drop target to be a card on the board or one of the twelve zone ids. With any other id, the source would write an extra key into the slot record. The drag library only reports registered drop targets, which are the zone ids and the card ids.
- Board.FieldLayout.HandleDragEnd: carries the same requirement on the drop target as `Transfer.Drop`.
- DeckOps.Draw: the count is a natural number. The handler is only called with 1 to 5, so negative or fractional counts are not modelled.
- Randomness: the `Math.random` sort comparators are a parameter holding any reordering of the cards. The model makes no claim that the shuffle is uniform. The dice and coin buttons are not modelled.
- Board.FieldLayout.HandleShuffle: the `window.confirm` answer is a boolean parameter.
- Persistence: reading the saved board from `localStorage` is the constructor's `saved` parameter, and a board that fails to parse counts as none. Saving on each change, when the deck is not empty (`FieldLayout.tsx:64-69`), is not modelled, and neither are the storage calls in `App.tsx:27-30` and `App.tsx:67-72`.
- Board.FieldLayout.constructor: a game with a cut deal starts here by constructing the component with the deal and an empty history. In the app the component is already mounted with the empty board (`App.tsx:32`, `App.tsx:108`), and the deal arrives as a new starting board (`App.tsx:63`). The effect at `FieldLayout.tsx:72-77` then replaces the shown board and keeps the history, so an undo right after the deal can show a board from before it. That prop change, and the resets then using the new starting board, are not modelled.
- Context menu: the screen coordinates, `preventDefault` and the document click listener are not modelled. `CloseContextMenu` is what the listener calls.
- Drag overlay: `handleDragStart`, the active card and hover state only feed rendering and are not modelled.
- Rendering and the drag library's sensors, collision detection and item-id list are UI or library code and are not modelled.
- The deck image cutter (OCR, canvas slicing, time-based ids) is I/O and floating point and is not modelled.
- `JSON.parse(JSON.stringify(...))` deep copies become value semantics.
- React's state batching is not modelled: the board the updaters receive is the board the handler reads.
- Card rotations are integers. A saved board with some other rotation value is not modelled.

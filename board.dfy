/**
 * The board component: the current board, the undo history of earlier boards and
 * the open context menu, with the handlers the buttons, the drag-and-drop and the
 * context menu call. Every handler that changes the board first records the board
 * it replaces.
 */
module Board {
  import opened Wrappers
  import opened Types
  import opened Location
  import opened Transfer
  import opened Orientation
  import opened DeckOps
  import opened Setup

  /** The invariant every board the component shows keeps: unique ids and upright or sideways rotations. */
  ghost predicate Good(g: GameState)
  {
    Unique(g) && RotationsValid(g)
  }

  /** Keeping a card's state or resetting it to the default keeps every rotation valid. */
  lemma ResetKeepsRotations(g: GameState, r: GameState, cardId: string)
    requires RotationsValid(g)
    requires r.cardStates == g.cardStates || r.cardStates == g.cardStates[cardId := DefaultState]
    ensures RotationsValid(r)
  {
  }

  /** A drop keeps a good board good. */
  lemma DropGood(g: GameState, activeId: string, overId: string)
    requires Good(g) && Destination(g, overId).Some?
    ensures Good(Drop(g, activeId, overId))
  {
    DropConserves(g, activeId, overId);
    var to := Destination(g, overId).value;
    if !Refused(g, activeId, to) {
      DropOrientation(g, activeId, overId, Locate(g, activeId).value, to);
      ResetKeepsRotations(g, Drop(g, activeId, overId), activeId);
    }
  }

  /** Both orientation actions keep a good board good. */
  lemma OrientationGood(g: GameState, menu: ContextMenu)
    requires Good(g)
    ensures Good(ToggleDisplay(g, menu)) && Good(SetFaceDown(g, menu.cardId))
  {
    OrientationKeepsCards(g, menu);
    OrientationKeepsRotations(g, menu);
  }

  /** The reshuffled restart of a good starting board is good. */
  lemma ShuffleResetGood(initial: GameState, shuffled: seq<Card>)
    requires Good(initial) && multiset(shuffled) == multiset(initial.deck + initial.hand)
    ensures Good(ShuffleReset(initial, shuffled))
  {
    ShuffleResetDeal(initial, shuffled);
  }

  class FieldLayout {
    /** The board both resets go back to. */
    const initialGameState: GameState
    /** The board on screen. */
    var gameState: GameState
    /** Earlier boards, the most recent last. */
    var history: seq<GameState>
    /** The open context menu, if any. */
    var contextMenu: Option<ContextMenu>

    /** The shown board, the starting board and every recorded board are good. */
    ghost predicate Valid()
      reads this
    {
      && Good(gameState)
      && Good(initialGameState)
      && (forall i | 0 <= i < |history| :: Good(history[i]))
    }

    /**
     * Mounting: the board saved by the previous visit when there is one, the starting
     * board otherwise; then the starting-board effect replaces it by the starting board
     * when that board's deck is not empty. No history and no menu. The app itself mounts
     * with the empty board and hands a cut deal over later, as a new starting board.
     */
    constructor(initial: GameState, saved: Option<GameState>)
      ensures initialGameState == initial
      ensures |initial.deck| > 0 ==> gameState == initial
      ensures |initial.deck| == 0 ==> gameState == saved.GetOr(initial)
      ensures history == [] && contextMenu == None
      ensures Good(initial) && Good(saved.GetOr(initial)) ==> Valid()
    {
      initialGameState := initial;
      gameState := saved.GetOr(initial);
      history := [];
      contextMenu := None;
      if |initial.deck| > 0 {
        gameState := initial;
      }
    }

    /** `saveHistory`: push the shown board. */
    method SaveHistory()
      modifies this
      ensures history == old(history) + [gameState]
      ensures gameState == old(gameState) && contextMenu == old(contextMenu)
      ensures old(Valid()) ==> Valid()
    {
      history := history + [gameState];
    }

    /** A change of board as every recording handler makes it: record the shown board, then show `next`. */
    method Commit(next: GameState)
      requires Good(gameState) ==> Good(next)
      modifies this
      ensures history == old(history) + [old(gameState)] && gameState == next
      ensures contextMenu == old(contextMenu)
      ensures old(Valid()) ==> Valid()
    {
      SaveHistory();
      gameState := next;
    }

    /** `undo`: show the most recent recorded board and drop it from the history; nothing when there is none. */
    method Undo()
      modifies this
      ensures old(history) == [] ==> gameState == old(gameState) && history == []
      ensures old(history) != [] ==>
        gameState == old(history)[|old(history)| - 1] && history == old(history)[..|old(history)| - 1]
      ensures contextMenu == old(contextMenu)
      ensures old(Valid()) ==> Valid()
    {
      if |history| == 0 {
        return;
      }
      gameState := history[|history| - 1];
      history := history[..|history| - 1];
    }

    /** `handleFullReset`: back to the starting board, with no history. */
    method HandleFullReset()
      modifies this
      ensures gameState == initialGameState && history == []
      ensures contextMenu == old(contextMenu)
      ensures old(Valid()) ==> Valid()
    {
      gameState := initialGameState;
      history := [];
    }

    /** `handleShuffleReset`: the starting deck and hand reshuffled and dealt again, with no history. */
    method HandleShuffleReset(shuffled: seq<Card>)
      requires multiset(shuffled) == multiset(initialGameState.deck + initialGameState.hand)
      modifies this
      ensures contextMenu == old(contextMenu)
      ensures gameState == ShuffleReset(initialGameState, shuffled) && history == []
      ensures old(Valid()) ==> Valid()
    {
      if Good(initialGameState) {
        ShuffleResetGood(initialGameState, shuffled);
      }
      gameState := ShuffleReset(initialGameState, shuffled);
      history := [];
    }

    /**
     * `handleDragEnd`: nothing without a drop target or when a card is dropped on itself;
     * otherwise the board is recorded first and then the transfer rule applies, so a
     * refused drop still adds a history entry.
     */
    method HandleDragEnd(activeId: string, over: Option<string>)
      requires over.Some? ==> Destination(gameState, over.value).Some?
      modifies this
      ensures over.None? || over.value == activeId ==>
        gameState == old(gameState) && history == old(history)
      ensures over.Some? && over.value != activeId ==>
        && history == old(history) + [old(gameState)]
        && gameState == Drop(old(gameState), activeId, over.value)
      ensures contextMenu == old(contextMenu)
      ensures old(Valid()) ==> Valid()
    {
      if over.None? {
        return;
      }
      var overId := over.value;
      if activeId == overId {
        return;
      }
      if Good(gameState) {
        DropGood(gameState, activeId, overId);
      }
      var next := DragEndUpdate(gameState, activeId, overId);
      Commit(next);
    }

    /** `handleDraw`: refused, with no history entry, when the deck has fewer than `count` cards. */
    method HandleDraw(count: nat)
      modifies this
      ensures |old(gameState).deck| < count ==> gameState == old(gameState) && history == old(history)
      ensures count <= |old(gameState).deck| ==>
        history == old(history) + [old(gameState)] && gameState == Draw(old(gameState), count).value
      ensures contextMenu == old(contextMenu)
      ensures old(Valid()) ==> Valid()
    {
      if |gameState.deck| < count {
        return;
      }
      DrawConserves(gameState, count);
      Commit(Draw(gameState, count).value);
    }

    /** `handleSmartDraw`: draw up to five cards in hand, or one. */
    method HandleSmartDraw()
      modifies this
      ensures SmartDraw(old(gameState)).None? ==> gameState == old(gameState) && history == old(history)
      ensures SmartDraw(old(gameState)).Some? ==>
        history == old(history) + [old(gameState)] && gameState == SmartDraw(old(gameState)).value
      ensures contextMenu == old(contextMenu)
      ensures old(Valid()) ==> Valid()
    {
      var count := SmartDrawCount(gameState);
      HandleDraw(count);
    }

    /** `handleShuffle`: once the player confirms, record the board and reorder the deck. */
    method HandleShuffle(confirmed: bool, shuffled: seq<Card>)
      requires multiset(shuffled) == multiset(gameState.deck)
      modifies this
      ensures !confirmed ==> gameState == old(gameState) && history == old(history)
      ensures confirmed ==>
        history == old(history) + [old(gameState)] && gameState == Shuffle(old(gameState), shuffled)
      ensures contextMenu == old(contextMenu)
      ensures old(Valid()) ==> Valid()
    {
      if confirmed {
        ShuffleConserves(gameState, shuffled);
        Commit(Shuffle(gameState, shuffled));
      }
    }

    /** `handleReturnFreeToTop`: refused, with no history entry, when the free zone is empty. */
    method HandleReturnFreeToTop()
      modifies this
      ensures old(gameState).free == [] ==> gameState == old(gameState) && history == old(history)
      ensures old(gameState).free != [] ==>
        history == old(history) + [old(gameState)] && gameState == ReturnFreeToTop(old(gameState)).value
      ensures contextMenu == old(contextMenu)
      ensures old(Valid()) ==> Valid()
    {
      if |gameState.free| == 0 {
        return;
      }
      ReturnFreeConserves(gameState);
      Commit(ReturnFreeToTop(gameState).value);
    }

    /** `handleReturnFreeToBottom`: refused, with no history entry, when the free zone is empty. */
    method HandleReturnFreeToBottom()
      modifies this
      ensures old(gameState).free == [] ==> gameState == old(gameState) && history == old(history)
      ensures old(gameState).free != [] ==>
        history == old(history) + [old(gameState)] && gameState == ReturnFreeToBottom(old(gameState)).value
      ensures contextMenu == old(contextMenu)
      ensures old(Valid()) ==> Valid()
    {
      if |gameState.free| == 0 {
        return;
      }
      ReturnFreeConserves(gameState);
      Commit(ReturnFreeToBottom(gameState).value);
    }

    /** `handleSendTopToGrave`: refused, with no history entry, when the deck is empty. */
    method HandleSendTopToGrave()
      modifies this
      ensures old(gameState).deck == [] ==> gameState == old(gameState) && history == old(history)
      ensures old(gameState).deck != [] ==>
        history == old(history) + [old(gameState)] && gameState == SendTopToGrave(old(gameState)).value
      ensures contextMenu == old(contextMenu)
      ensures old(Valid()) ==> Valid()
    {
      if |gameState.deck| == 0 {
        return;
      }
      SendTopConserves(gameState);
      Commit(SendTopToGrave(gameState).value);
    }

    /** `handleContextMenu`: open the menu on a card in a slot; otherwise leave the menu as it was. */
    method HandleContextMenu(target: MenuTarget)
      modifies this
      ensures OpenContextMenu(old(gameState), target).Some? ==> contextMenu == OpenContextMenu(old(gameState), target)
      ensures OpenContextMenu(old(gameState), target).None? ==> contextMenu == old(contextMenu)
      ensures gameState == old(gameState) && history == old(history)
      ensures old(Valid()) ==> Valid()
    {
      var menu := OpenContextMenu(gameState, target);
      if menu.Some? {
        contextMenu := menu;
      }
    }

    /** `closeContextMenu`, run on any click: the menu closes and nothing else changes. */
    method CloseContextMenu()
      modifies this
      ensures contextMenu == None
      ensures gameState == old(gameState) && history == old(history)
      ensures old(Valid()) ==> Valid()
    {
      contextMenu := None;
    }

    /** `toggleDisplayMode`: with a menu open, record the board, toggle the menu's card and close the menu. */
    method ToggleDisplayMode()
      modifies this
      ensures old(contextMenu).None? ==> gameState == old(gameState) && history == old(history)
      ensures old(contextMenu).Some? ==>
        && history == old(history) + [old(gameState)]
        && gameState == ToggleDisplay(old(gameState), old(contextMenu).value)
      ensures contextMenu == None
      ensures old(Valid()) ==> Valid()
    {
      if contextMenu.None? {
        return;
      }
      var menu := contextMenu.value;
      if Good(gameState) {
        OrientationGood(gameState, menu);
      }
      var next := ToggleDisplayUpdate(gameState, menu);
      Commit(next);
      CloseContextMenu();
    }

    /** `setFaceDownDefense`: with a menu open, record the board, set the menu's card face down in defence and close the menu. */
    method SetFaceDownDefense()
      modifies this
      ensures old(contextMenu).None? ==> gameState == old(gameState) && history == old(history)
      ensures old(contextMenu).Some? ==>
        && history == old(history) + [old(gameState)]
        && gameState == SetFaceDown(old(gameState), old(contextMenu).value.cardId)
      ensures contextMenu == None
      ensures old(Valid()) ==> Valid()
    {
      if contextMenu.None? {
        return;
      }
      var menu := contextMenu.value;
      if Good(gameState) {
        OrientationGood(gameState, menu);
      }
      var next := SetFaceDown(gameState, menu.cardId);
      Commit(next);
      CloseContextMenu();
    }
  }

  /** Undo right after an accepted or a refused drop shows the board from before the drag and restores the history. */
  method UndoDrop(layout: FieldLayout, activeId: string, overId: string)
    requires activeId != overId && Destination(layout.gameState, overId).Some?
    modifies layout
    ensures layout.gameState == old(layout.gameState) && layout.history == old(layout.history)
  {
    layout.HandleDragEnd(activeId, Some(overId));
    layout.Undo();
  }

  /** Undo right after a draw shows the board from before the draw and restores the history. */
  method UndoDraw(layout: FieldLayout, count: nat)
    requires count <= |layout.gameState.deck|
    modifies layout
    ensures layout.gameState == old(layout.gameState) && layout.history == old(layout.history)
  {
    layout.HandleDraw(count);
    layout.Undo();
  }

  /** A refused draw records nothing, so the undo after it goes back to the board before the previous action. */
  method UndoAfterRefusedDraw(layout: FieldLayout, count: nat)
    requires count > |layout.gameState.deck| && layout.history != []
    modifies layout
    ensures layout.gameState == old(layout.history)[|old(layout.history)| - 1]
  {
    layout.HandleDraw(count);
    layout.Undo();
  }
}

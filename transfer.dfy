/**
 * The drag-end transfer rule: what the board becomes when card `activeId`
 * is dropped on the drop target `overId` (a zone id or another card's id).
 */
module Transfer {
  import opened Wrappers
  import opened Types
  import opened Location
  import opened CardLists

  /** `findCardLocation(overId) || overId`: the container a drop target resolves to; a card id wins over a zone id. */
  function Destination(g: GameState, overId: string): (r: Option<ZoneName>)
    ensures Locate(g, overId).Some? ==> r == Locate(g, overId)
    ensures Locate(g, overId).None? ==> r == ZoneNamed(overId)
  {
    match Locate(g, overId)
    case Some(z) => Some(z)
    case None => ZoneNamed(overId)
  }

  /** The drop is refused and the board returned as it was: the dragged id is on no zone, or the target slot is taken. */
  predicate Refused(g: GameState, activeId: string, to: ZoneName)
  {
    Locate(g, activeId).None? || (!to.IsArrayZone() && g.zones.Get(to).Some?)
  }

  /** Both ids are cards of one ordered zone: the drop is a reorder of that zone. */
  predicate IsReorder(g: GameState, activeId: string, overId: string, to: ZoneName)
  {
    && to.IsArrayZone()
    && Locate(g, activeId) == Some(to)
    && IndexOf(Pile(g, to), activeId) != -1
    && IndexOf(Pile(g, to), overId) != -1
  }

  /** Step 5b: the dragged card leaves its zone; leaving a slot also resets the card's state. */
  function Lift(g: GameState, from: ZoneName, activeId: string): GameState
  {
    if from.IsArrayZone() then WithPile(g, from, RemoveId(Pile(g, from), activeId))
    else
      var h := WithSlot(g, from, None);
      h.(cardStates := g.cardStates[activeId := DefaultState])
  }

  /**
   * Step 5c for an ordered zone: into the deck the card goes on top when the target is a
   * deck card and at the bottom otherwise; into another ordered zone it goes right after
   * the target card, or at the end when the target is not a card of that zone.
   */
  function Inserted(target: seq<Card>, isDeck: bool, card: Card, overIsCard: bool, overId: string): seq<Card>
  {
    if isDeck then
      if overIsCard then [card] + target else target + [card]
    else
      var overIndex := IndexOf(target, overId);
      if overIndex != -1 then InsertAt(target, overIndex + 1, card) else target + [card]
  }

  /** Step 5c: the card enters the target zone; a card put into a slot gets the default state. */
  function Place(g: GameState, to: ZoneName, card: Card, overIsCard: bool, overId: string): GameState
  {
    if to.IsArrayZone() then
      WithPile(g, to, Inserted(Pile(g, to), to == Deck, card, overIsCard, overId))
    else
      var h := WithSlot(g, to, Some(card));
      h.(cardStates := g.cardStates[card.id := DefaultState])
  }

  /** The board after the drag-end updater, for a drop target that resolves to a zone. */
  function Drop(g: GameState, activeId: string, overId: string): (r: GameState)
    requires Destination(g, overId).Some?
    ensures Refused(g, activeId, Destination(g, overId).value) ==> r == g
  {
    var to := Destination(g, overId).value;
    if Refused(g, activeId, to) then g
    else
      var from := Locate(g, activeId).value;
      if IsReorder(g, activeId, overId, to) then
        var pile := Pile(g, to);
        WithPile(g, to, ArrayMove(pile, IndexOf(pile, activeId), IndexOf(pile, overId)))
      else
        match FindCard(g, activeId)
        case None => g
        case Some(card) => Place(Lift(g, from, activeId), to, card, Locate(g, overId) == Some(to), overId)
  }

  /**
   * The updater as the handler runs it: resolve both containers, apply the guards,
   * reorder in place, or edit a copy of the board one step at a time.
   */
  method DragEndUpdate(prev: GameState, activeId: string, overId: string) returns (next: GameState)
    requires Destination(prev, overId).Some?
    ensures next == Drop(prev, activeId, overId)
  {
    var fromContainer := FindCardLocation(prev, activeId);
    var overLocation := FindCardLocation(prev, overId);
    var toContainer := if overLocation.Some? then overLocation.value else ZoneNamed(overId).value;
    assert Destination(prev, overId) == Some(toContainer);
    if fromContainer.None? {
      return prev;
    }
    if !toContainer.IsArrayZone() && prev.zones.Get(toContainer).Some? {
      return prev;
    }
    var from := fromContainer.value;
    if from == toContainer && from.IsArrayZone() {
      var oldIndex := IndexOf(Pile(prev, from), activeId);
      var newIndex := IndexOf(Pile(prev, from), overId);
      if oldIndex != -1 && newIndex != -1 {
        DropReorders(prev, activeId, overId, from);
        return WithPile(prev, from, ArrayMove(Pile(prev, from), oldIndex, newIndex));
      }
    }
    assert !IsReorder(prev, activeId, overId, toContainer);
    var found := FindCard(prev, activeId);
    if found.None? {
      return prev;
    }
    var card := found.value;
    DropMoves(prev, activeId, overId, from, toContainer, card);
    var newState := LiftCard(prev, from, activeId);
    next := PlaceCard(newState, toContainer, card, overLocation == Some(toContainer), overId);
  }

  /** Steps 5a and 5b on the copy: reset the state when leaving a slot, then remove the card from its zone. */
  method LiftCard(prev: GameState, from: ZoneName, activeId: string) returns (newState: GameState)
    ensures newState == Lift(prev, from, activeId)
  {
    newState := prev;
    if !from.IsArrayZone() {
      newState := newState.(cardStates := newState.cardStates[activeId := DefaultState]);
    }
    if from.IsArrayZone() {
      newState := WithPile(newState, from, RemoveId(Pile(newState, from), activeId));
    } else {
      newState := WithSlot(newState, from, None);
    }
  }

  /** Step 5c on the copy: insert into an ordered zone, or fill the slot and reset the card's state. */
  method PlaceCard(newState: GameState, toContainer: ZoneName, card: Card, overIsCard: bool, overId: string)
    returns (next: GameState)
    ensures next == Place(newState, toContainer, card, overIsCard, overId)
  {
    if toContainer.IsArrayZone() {
      var targetArray := InsertCard(Pile(newState, toContainer), toContainer == Deck, card, overIsCard, overId);
      next := WithPile(newState, toContainer, targetArray);
    } else {
      next := WithSlot(newState, toContainer, Some(card));
      next := next.(cardStates := next.cardStates[card.id := DefaultState]);
    }
  }

  /** `unshift` or `push` for the deck, `splice` after the target card or `push` for the other ordered zones. */
  method InsertCard(target: seq<Card>, isDeck: bool, card: Card, overIsCard: bool, overId: string)
    returns (targetArray: seq<Card>)
    ensures targetArray == Inserted(target, isDeck, card, overIsCard, overId)
  {
    targetArray := target;
    if isDeck {
      if overIsCard {
        targetArray := [card] + targetArray;
      } else {
        targetArray := targetArray + [card];
      }
    } else {
      var overIndex := IndexOf(targetArray, overId);
      if overIndex != -1 {
        targetArray := InsertAt(targetArray, overIndex + 1, card);
      } else {
        targetArray := targetArray + [card];
      }
    }
  }

  // ---------------------------------------------------------------------
  // The two kinds of accepted drop

  /** An accepted drop that is a reorder applies `arrayMove` to that zone. */
  lemma DropReorders(g: GameState, activeId: string, overId: string, to: ArrayZoneName)
    requires Destination(g, overId) == Some(to)
    requires IsReorder(g, activeId, overId, to)
    ensures var pile := Pile(g, to);
      Drop(g, activeId, overId) == WithPile(g, to, ArrayMove(pile, IndexOf(pile, activeId), IndexOf(pile, overId)))
  {
  }

  /** Any other accepted drop lifts the found card out of its zone and places it into the target. */
  lemma DropMoves(g: GameState, activeId: string, overId: string, from: ZoneName, to: ZoneName, card: Card)
    requires Locate(g, activeId) == Some(from) && Destination(g, overId) == Some(to)
    requires !Refused(g, activeId, to) && !IsReorder(g, activeId, overId, to)
    requires FindCard(g, activeId) == Some(card)
    ensures Drop(g, activeId, overId) == Place(Lift(g, from, activeId), to, card, Locate(g, overId) == Some(to), overId)
  {
  }

  /** The move case for a card `c` of zone `from` on a board that satisfies the invariant. */
  lemma DropMovesCard(g: GameState, c: Card, from: ZoneName, overId: string, to: ZoneName)
    requires Unique(g) && c in Contents(g, from) && Destination(g, overId) == Some(to)
    requires !to.IsArrayZone() ==> g.zones.Get(to).None?
    requires !IsReorder(g, c.id, overId, to)
    ensures Drop(g, c.id, overId) == Place(Lift(g, from, c.id), to, c, Locate(g, overId) == Some(to), overId)
  {
    UniqueLocate(g, c, from);
    FindCardIsCard(g, c, from);
    DropMoves(g, c.id, overId, from, to, c);
  }

  /** Lifting a card out of `from` leaves every other ordered zone as it was. */
  lemma LiftKeepsPile(g: GameState, from: ZoneName, activeId: string, z: ArrayZoneName)
    requires from != z
    ensures Pile(Lift(g, from, activeId), z) == Pile(g, z)
  {
  }

  /** Lifting a card out of `from` leaves every other slot as it was. */
  lemma LiftKeepsSlot(g: GameState, from: ZoneName, activeId: string, z: SlotName)
    requires from != z
    ensures Lift(g, from, activeId).zones.Get(z) == g.zones.Get(z)
  {
  }

  /** Lifting resets the card's state exactly when it leaves a slot. */
  lemma LiftStates(g: GameState, from: ZoneName, activeId: string)
    ensures Lift(g, from, activeId).cardStates ==
      if from.IsArrayZone() then g.cardStates else g.cardStates[activeId := DefaultState]
  {
  }

  /** Placing resets the card's state exactly when it enters a slot. */
  lemma PlaceStates(g: GameState, to: ZoneName, card: Card, overIsCard: bool, overId: string)
    ensures Place(g, to, card, overIsCard, overId).cardStates ==
      if to.IsArrayZone() then g.cardStates else g.cardStates[card.id := DefaultState]
  {
  }

  // ---------------------------------------------------------------------
  // Card conservation

  /** Replacing a pile by one with one more card adds exactly that card to the board. */
  lemma PileGrows(g: GameState, z: ArrayZoneName, s: seq<Card>, c: Card)
    requires multiset(s) == multiset(Pile(g, z)) + multiset{c}
    ensures Bag(WithPile(g, z, s)) == Bag(g) + multiset{c}
  {
    PileBag(g, z, s);
    Cancel(Bag(WithPile(g, z, s)), Bag(g) + multiset{c}, multiset(Pile(g, z)));
  }

  /** Filtering a card out of a pile whose ids are distinct removes exactly that card from the board. */
  lemma LiftPileBag(g: GameState, from: ArrayZoneName, c: Card)
    requires DistinctIds(multiset(Pile(g, from))) && c in Pile(g, from)
    ensures Bag(Lift(g, from, c.id)) + multiset{c} == Bag(g)
  {
    var rest := RemoveId(Pile(g, from), c.id);
    RemoveUnique(Pile(g, from), c);
    assert Lift(g, from, c.id) == WithPile(g, from, rest);
    PileBag(g, from, rest);
    Cancel(Bag(WithPile(g, from, rest)) + multiset{c}, Bag(g), multiset(rest));
  }

  /** Emptying the slot that holds a card removes exactly that card from the board. */
  lemma LiftSlotBag(g: GameState, from: SlotName, c: Card)
    requires g.zones.Get(from) == Some(c)
    ensures Bag(Lift(g, from, c.id)) + multiset{c} == Bag(g)
  {
    SlotBag(g, from, None);
    assert Bag(Lift(g, from, c.id)) == Bag(WithSlot(g, from, None));
  }

  /** Lifting the dragged card, on a board where it sits in `from`, removes exactly that card. */
  lemma LiftBag(g: GameState, from: ZoneName, c: Card)
    requires Unique(g) && c in Contents(g, from)
    ensures Bag(Lift(g, from, c.id)) + multiset{c} == Bag(g)
  {
    if from.IsArrayZone() {
      ContentsInBag(g, from);
      DistinctSub(multiset(Contents(g, from)), Bag(g));
      LiftPileBag(g, from, c);
    } else {
      LiftSlotBag(g, from, c);
    }
  }

  /** Putting a card on top of or under the deck adds exactly that card. */
  lemma PlaceDeckBag(g: GameState, c: Card, overIsCard: bool, overId: string)
    ensures Bag(Place(g, Deck, c, overIsCard, overId)) == Bag(g) + multiset{c}
  {
    var s := if overIsCard then [c] + g.deck else g.deck + [c];
    assert Place(g, Deck, c, overIsCard, overId) == WithPile(g, Deck, s);
    PileGrows(g, Deck, s, c);
  }

  /** Inserting a card into an ordered zone other than the deck adds exactly that card. */
  lemma PlacePileBag(g: GameState, to: ArrayZoneName, c: Card, overIsCard: bool, overId: string)
    requires to != Deck
    ensures Bag(Place(g, to, c, overIsCard, overId)) == Bag(g) + multiset{c}
  {
    var target := Pile(g, to);
    var k := IndexOf(target, overId);
    var s := if k != -1 then InsertAt(target, k + 1, c) else target + [c];
    if k != -1 {
      InsertBag(target, k + 1, c);
    }
    assert multiset(s) == multiset(target) + multiset{c};
    assert Place(g, to, c, overIsCard, overId) == WithPile(g, to, s);
    PileGrows(g, to, s, c);
  }

  /** Putting a card into an empty slot adds exactly that card. */
  lemma PlaceSlotBag(g: GameState, to: SlotName, c: Card, overIsCard: bool, overId: string)
    requires g.zones.Get(to).None?
    ensures Bag(Place(g, to, c, overIsCard, overId)) == Bag(g) + multiset{c}
  {
    SlotBag(g, to, Some(c));
    assert Bag(Place(g, to, c, overIsCard, overId)) == Bag(WithSlot(g, to, Some(c)));
  }

  /** Placing a card into a zone that can take it adds exactly that card. */
  lemma PlaceBag(g: GameState, to: ZoneName, c: Card, overIsCard: bool, overId: string)
    requires !to.IsArrayZone() ==> g.zones.Get(to).None?
    ensures Bag(Place(g, to, c, overIsCard, overId)) == Bag(g) + multiset{c}
  {
    if to == Deck {
      PlaceDeckBag(g, c, overIsCard, overId);
    } else if to.IsArrayZone() {
      PlacePileBag(g, to, c, overIsCard, overId);
    } else {
      PlaceSlotBag(g, to, c, overIsCard, overId);
    }
  }

  /** A same-zone reorder keeps the board's cards. */
  lemma ReorderBag(g: GameState, z: ArrayZoneName, i: nat, j: nat)
    requires i < |Pile(g, z)| && j < |Pile(g, z)|
    ensures Bag(WithPile(g, z, ArrayMove(Pile(g, z), i, j))) == Bag(g)
  {
    ArrayMovePermutes(Pile(g, z), i, j);
    PileBag(g, z, ArrayMove(Pile(g, z), i, j));
    Cancel(Bag(WithPile(g, z, ArrayMove(Pile(g, z), i, j))), Bag(g), multiset(Pile(g, z)));
  }

  /** Lifting a card of zone `from` and placing it into a zone that can take it keeps the board's cards. */
  lemma MoveBag(g: GameState, c: Card, from: ZoneName, to: ZoneName, overIsCard: bool, overId: string)
    requires Unique(g) && c in Contents(g, from)
    requires !to.IsArrayZone() ==> g.zones.Get(to).None?
    ensures Bag(Place(Lift(g, from, c.id), to, c, overIsCard, overId)) == Bag(g)
  {
    LiftBag(g, from, c);
    if !to.IsArrayZone() {
      LiftKeepsSlot(g, from, c.id, to);
    }
    PlaceBag(Lift(g, from, c.id), to, c, overIsCard, overId);
  }

  /**
   * Every drop keeps the cards on the board: no card appears, none is lost, and
   * every id stays in exactly one zone or slot.
   */
  lemma DropConserves(g: GameState, activeId: string, overId: string)
    requires Unique(g) && Destination(g, overId).Some?
    ensures Bag(Drop(g, activeId, overId)) == Bag(g)
    ensures Unique(Drop(g, activeId, overId))
  {
    var to := Destination(g, overId).value;
    if !Refused(g, activeId, to) {
      var from := Locate(g, activeId).value;
      if IsReorder(g, activeId, overId, to) {
        var pile := Pile(g, to);
        DropReorders(g, activeId, overId, to);
        ReorderBag(g, to, IndexOf(pile, activeId), IndexOf(pile, overId));
      } else {
        var c :| c in Contents(g, from) && c.id == activeId;
        DropMovesCard(g, c, from, overId, to);
        MoveBag(g, c, from, to, Locate(g, overId) == Some(to), overId);
      }
    }
  }

  // ---------------------------------------------------------------------
  // Where the card lands

  /** In a zone whose ids are distinct, the card at position `k` is the first with its id. */
  lemma IndexOfDistinct(s: seq<Card>, k: nat)
    requires DistinctIds(multiset(s)) && k < |s|
    ensures IndexOf(s, s[k].id) == k
  {
    var j := IndexOf(s, s[k].id);
    TwoPositions(s, j, k);
    assert s[k] in multiset(s);
  }

  /**
   * Dropping a card of one ordered zone onto another card of the same zone applies
   * `arrayMove` from the dragged card's position to the target card's position;
   * nothing else changes.
   */
  lemma DropReorder(g: GameState, z: ArrayZoneName, i: nat, j: nat)
    requires Unique(g) && i < |Pile(g, z)| && j < |Pile(g, z)|
    ensures var pile := Pile(g, z);
      && Destination(g, pile[j].id) == Some(z)
      && (var r := Drop(g, pile[i].id, pile[j].id);
          && Pile(r, z) == ArrayMove(pile, i, j)
          && (forall y: ArrayZoneName :: y != z ==> Pile(r, y) == Pile(g, y))
          && r.zones == g.zones && r.cardStates == g.cardStates)
  {
    var pile := Pile(g, z);
    ContentsInBag(g, z);
    DistinctSub(multiset(pile), Bag(g));
    UniqueLocate(g, pile[i], z);
    UniqueLocate(g, pile[j], z);
    IndexOfDistinct(pile, i);
    IndexOfDistinct(pile, j);
    DropReorders(g, pile[i].id, pile[j].id, z);
  }

  /** A card dropped on a deck card from another zone goes on top of the deck. */
  lemma DropOntoDeckCard(g: GameState, c: Card, from: ZoneName, d: Card)
    requires Unique(g) && c in Contents(g, from) && from != Deck && d in g.deck
    ensures Destination(g, d.id) == Some(Deck) && Drop(g, c.id, d.id).deck == [c] + g.deck
  {
    UniqueLocate(g, c, from);
    UniqueLocate(g, d, Deck);
    DropMovesCard(g, c, from, d.id, Deck);
    LiftKeepsPile(g, from, c.id, Deck);
  }

  /** After lifting a card of a zone whose ids are distinct, every ordered zone is its old self without that card. */
  lemma LiftedPile(g: GameState, c: Card, from: ZoneName, z: ArrayZoneName)
    requires Unique(g) && c in Contents(g, from)
    ensures Pile(Lift(g, from, c.id), z) == RemoveId(Pile(g, z), c.id)
  {
    if from != z {
      var pile := Pile(g, z);
      forall e | e in pile ensures e.id != c.id {
        assert e in Contents(g, z);
        UniqueMeansOneZone(g, c, e, from, z);
      }
      RemoveAbsent(pile, c.id);
      LiftKeepsPile(g, from, c.id, z);
    }
  }

  /** With no target card in an ordered zone, placing into it appends. */
  lemma PlaceAtEnd(g: GameState, z: ArrayZoneName, c: Card, overId: string)
    requires IndexOf(Pile(g, z), overId) == -1
    ensures Pile(Place(g, z, c, false, overId), z) == Pile(g, z) + [c]
  {
  }

  /**
   * A card dropped on the area of an ordered zone (its zone id, which no card has as
   * its id) goes to its end; for the deck that is the bottom. A card already in that
   * zone is moved to the end.
   */
  lemma DropOnZoneArea(g: GameState, c: Card, from: ZoneName, overId: string, z: ArrayZoneName)
    requires Unique(g) && c in Contents(g, from)
    requires Locate(g, overId).None? && ZoneNamed(overId) == Some(z)
    ensures Pile(Drop(g, c.id, overId), z) == RemoveId(Pile(g, z), c.id) + [c]
  {
    var pile := Pile(g, z);
    assert !Holds(g, z, overId);
    assert IndexOf(pile, overId) == -1;
    DropMovesCard(g, c, from, overId, z);
    LiftedPile(g, c, from, z);
    var lifted := Lift(g, from, c.id);
    assert IndexOf(Pile(lifted, z), overId) == -1;
    PlaceAtEnd(lifted, z, c, overId);
  }

  /** Placing into an ordered zone other than the deck, on a card found at `k`, inserts right after it. */
  lemma PlaceAfter(g: GameState, z: ArrayZoneName, c: Card, overIsCard: bool, overId: string, k: nat)
    requires z != Deck && k < |Pile(g, z)| && IndexOf(Pile(g, z), overId) == k
    ensures Pile(Place(g, z, c, overIsCard, overId), z) == Pile(g, z)[..k + 1] + [c] + Pile(g, z)[k + 1..]
  {
  }

  /**
   * A card dropped from another zone on a card of an ordered zone other than the deck
   * is inserted right after that card.
   */
  lemma DropAfterCard(g: GameState, c: Card, from: ZoneName, z: ArrayZoneName, k: nat)
    requires Unique(g) && c in Contents(g, from) && from != z && z != Deck
    requires k < |Pile(g, z)|
    ensures var pile := Pile(g, z);
      && Destination(g, pile[k].id) == Some(z)
      && Pile(Drop(g, c.id, pile[k].id), z) == pile[..k + 1] + [c] + pile[k + 1..]
  {
    var pile := Pile(g, z);
    UniqueLocate(g, c, from);
    UniqueLocate(g, pile[k], z);
    ContentsInBag(g, z);
    DistinctSub(multiset(pile), Bag(g));
    IndexOfDistinct(pile, k);
    DropMovesCard(g, c, from, pile[k].id, z);
    LiftKeepsPile(g, from, c.id, z);
    PlaceAfter(Lift(g, from, c.id), z, c, true, pile[k].id, k);
  }

  /** After lifting, no card with the lifted id is left in the zone it came from. */
  lemma LiftRemoves(g: GameState, from: ZoneName, id: string)
    ensures forall e | e in Contents(Lift(g, from, id), from) :: e.id != id
  {
  }

  /** Placing a card into a slot puts it there with the default state and changes no other zone. */
  lemma PlaceInSlot(g: GameState, z: SlotName, c: Card, overIsCard: bool, overId: string, y: ZoneName)
    requires y != z
    ensures var r := Place(g, z, c, overIsCard, overId);
      && r.zones.Get(z) == Some(c)
      && r.cardStates == g.cardStates[c.id := DefaultState]
      && Contents(r, y) == Contents(g, y)
  {
  }

  /** Moving a card of zone `from` into another zone's slot: the slot holds it with the default state, `from` no longer does. */
  lemma MoveToSlot(g: GameState, c: Card, from: ZoneName, z: SlotName, overIsCard: bool, overId: string)
    requires from != z
    ensures var r := Place(Lift(g, from, c.id), z, c, overIsCard, overId);
      && r.zones.Get(z) == Some(c)
      && r.cardStates == g.cardStates[c.id := DefaultState]
      && c !in Contents(r, from)
  {
    LiftStates(g, from, c.id);
    LiftRemoves(g, from, c.id);
    PlaceInSlot(Lift(g, from, c.id), z, c, overIsCard, overId, from);
  }

  /**
   * A card dropped on an empty slot (by the slot's id, which no card has as its id)
   * occupies it with the default state and is gone from where it was.
   */
  lemma DropOnSlot(g: GameState, c: Card, from: ZoneName, overId: string, z: SlotName)
    requires Unique(g) && c in Contents(g, from) && g.zones.Get(z).None?
    requires Locate(g, overId).None? && ZoneNamed(overId) == Some(z)
    ensures var r := Drop(g, c.id, overId);
      && r.zones.Get(z) == Some(c)
      && r.cardStates == g.cardStates[c.id := DefaultState]
      && c !in Contents(r, from)
  {
    assert from != z;
    DropMovesCard(g, c, from, overId, z);
    MoveToSlot(g, c, from, z, false, overId);
  }

  /**
   * The orientation map after an accepted drop: the dragged card is reset to the
   * default state when it leaves or enters a slot; a move between two ordered zones
   * leaves every state as it was.
   */
  lemma DropOrientation(g: GameState, activeId: string, overId: string, from: ZoneName, to: ZoneName)
    requires Locate(g, activeId) == Some(from) && Destination(g, overId) == Some(to)
    requires !to.IsArrayZone() ==> g.zones.Get(to).None?
    ensures Drop(g, activeId, overId).cardStates ==
      if from.IsArrayZone() && to.IsArrayZone() then g.cardStates
      else g.cardStates[activeId := DefaultState]
  {
    if !IsReorder(g, activeId, overId, to) {
      FindCardIn(g, activeId, from);
      MoveStates(g, activeId, overId, from, to, FindCard(g, activeId).value);
    }
  }

  /** The move case of `DropOrientation`: the lift's reset and the placement's reset compose. */
  lemma MoveStates(g: GameState, activeId: string, overId: string, from: ZoneName, to: ZoneName, card: Card)
    requires Locate(g, activeId) == Some(from) && Destination(g, overId) == Some(to)
    requires !to.IsArrayZone() ==> g.zones.Get(to).None?
    requires !IsReorder(g, activeId, overId, to)
    requires FindCard(g, activeId) == Some(card) && card.id == activeId
    ensures Drop(g, activeId, overId).cardStates ==
      if from.IsArrayZone() && to.IsArrayZone() then g.cardStates
      else g.cardStates[activeId := DefaultState]
  {
    DropMoves(g, activeId, overId, from, to, card);
    var lifted := Lift(g, from, activeId);
    LiftStates(g, from, activeId);
    PlaceStates(lifted, to, card, Locate(g, overId) == Some(to), overId);
    ResetTwice(g.cardStates, lifted.cardStates, Drop(g, activeId, overId).cardStates, from, to, activeId);
  }

  /** Resetting a card's state on leaving and again on entering is one reset. */
  lemma ResetTwice(before: map<string, CardState>, lifted: map<string, CardState>, after: map<string, CardState>,
                   from: ZoneName, to: ZoneName, id: string)
    requires lifted == if from.IsArrayZone() then before else before[id := DefaultState]
    requires after == if to.IsArrayZone() then lifted else lifted[id := DefaultState]
    ensures after == if from.IsArrayZone() && to.IsArrayZone() then before else before[id := DefaultState]
  {
  }
}

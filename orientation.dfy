/**
 * Card orientation on the field: the state lookup with its default, the context
 * menu that selects a card in a slot, the display toggle and the face-down set.
 */
module Orientation {
  import opened Wrappers
  import opened Types
  import opened Location

  /** Face-up defence: turned sideways. */
  const FaceUpDefense := CardState(-90, false)

  /** Face-down defence, the state of a set card. */
  const FaceDownDefense := CardState(-90, true)

  /** `getCardState`: the recorded state of a card, or the default when none is recorded. */
  function GetCardState(g: GameState, cardId: string): (s: CardState)
    ensures cardId !in g.cardStates ==> s == DefaultState
    ensures cardId in g.cardStates ==> s == g.cardStates[cardId]
  {
    if cardId in g.cardStates then g.cardStates[cardId] else DefaultState
  }

  /** The rotations the board ever writes: upright or turned sideways. */
  predicate ValidRotation(s: CardState)
  {
    s.rotation == 0 || s.rotation == -90
  }

  /** Every recorded state has one of the two rotations. */
  predicate RotationsValid(g: GameState)
  {
    forall id | id in g.cardStates :: ValidRotation(g.cardStates[id])
  }

  /** The default state is upright, so every state the board can show has a valid rotation. */
  lemma ShownRotationValid(g: GameState, cardId: string)
    requires RotationsValid(g)
    ensures ValidRotation(GetCardState(g, cardId))
  {
  }

  /** The open context menu: the card it was opened on and the slot that card is in. */
  datatype ContextMenu = ContextMenu(cardId: string, location: SlotName)

  /** What the menu gesture was made on: a card, or a zone given by its id. */
  datatype MenuTarget = OnCard(card: Card) | OnZone(zoneId: string)

  /**
   * `handleContextMenu`: the id of the card aimed at (a slot's occupant when aimed at
   * a zone), opened only when the id is non-empty and the card is in a slot.
   */
  function OpenContextMenu(g: GameState, target: MenuTarget): (r: Option<ContextMenu>)
    ensures r.Some? ==> Locate(g, r.value.cardId) == Some(r.value.location)
    ensures r.Some? ==> r.value.cardId != ""
  {
    var cardId :=
      match target
      case OnCard(c) => c.id
      case OnZone(s) =>
        match ZoneNamed(s)
        case Some(z) => if !z.IsArrayZone() && g.zones.Get(z).Some? then g.zones.Get(z).value.id else ""
        case None => "";
    if cardId == "" then None
    else
      match Locate(g, cardId)
      case Some(z) => if z.IsArrayZone() then None else Some(ContextMenu(cardId, z))
      case None => None
  }

  /** The menu never opens for a card in an ordered zone; aimed at a card in a slot, it opens on that card and slot. */
  lemma ContextMenuOnSlots(g: GameState, c: Card, z: ZoneName)
    requires Unique(g) && c in Contents(g, z) && c.id != ""
    ensures OpenContextMenu(g, OnCard(c)).Some? <==> !z.IsArrayZone()
    ensures !z.IsArrayZone() ==> OpenContextMenu(g, OnCard(c)) == Some(ContextMenu(c.id, z))
  {
    UniqueLocate(g, c, z);
  }

  /** The display toggle of one card: a cycle through the monster positions, or a face flip for spell and field cards. */
  function Toggled(location: SlotName, s: CardState): CardState
  {
    if location.IsMonster() then
      if s.hidden then DefaultState
      else if s.rotation == 0 then FaceUpDefense
      else DefaultState
    else
      s.(hidden := !s.hidden)
  }

  /**
   * `toggleDisplayMode`'s update, as the handler edits its copy of the state:
   * start from the recorded state or the default, change its fields, store it back.
   */
  method ToggleState(location: SlotName, recorded: Option<CardState>) returns (cardState: CardState)
    ensures cardState == Toggled(location, recorded.GetOr(DefaultState))
  {
    var rotation := recorded.GetOr(DefaultState).rotation;
    var hidden := recorded.GetOr(DefaultState).hidden;
    if location.IsMonster() {
      if hidden {
        rotation := 0;
        hidden := false;
      } else if rotation == 0 {
        rotation := -90;
      } else {
        rotation := 0;
      }
    } else {
      hidden := !hidden;
    }
    cardState := CardState(rotation, hidden);
  }

  /**
   * A monster's toggle always shows it face up, in attack when it was face down or in
   * defence and in defence when it was in attack; after the first toggle it alternates
   * between the two.
   */
  lemma MonsterCycle(location: SlotName, s: CardState)
    requires location.IsMonster()
    ensures Toggled(location, s) == (if !s.hidden && s.rotation == 0 then FaceUpDefense else DefaultState)
    ensures Toggled(location, Toggled(location, Toggled(location, s))) == Toggled(location, s)
    ensures Toggled(location, Toggled(location, s)) != Toggled(location, s)
  {
  }

  /** For spell and field cards the toggle flips the face and nothing else, so two toggles undo each other. */
  lemma SpellFlip(location: SlotName, s: CardState)
    requires !location.IsMonster()
    ensures Toggled(location, s).hidden != s.hidden && Toggled(location, s).rotation == s.rotation
    ensures Toggled(location, Toggled(location, s)) == s
  {
  }

  /** The toggle never produces a rotation other than upright or sideways. */
  lemma ToggledRotation(location: SlotName, s: CardState)
    requires ValidRotation(s)
    ensures ValidRotation(Toggled(location, s))
  {
  }

  /** The board after the display toggle of the menu's card: only that card's state changes. */
  function ToggleDisplay(g: GameState, menu: ContextMenu): (r: GameState)
    ensures GetCardState(r, menu.cardId) == Toggled(menu.location, GetCardState(g, menu.cardId))
    ensures r.cardStates.Keys == g.cardStates.Keys + {menu.cardId}
    ensures forall id | id in g.cardStates && id != menu.cardId :: r.cardStates[id] == g.cardStates[id]
    ensures r == g.(cardStates := r.cardStates)
  {
    g.(cardStates := g.cardStates[menu.cardId := Toggled(menu.location, GetCardState(g, menu.cardId))])
  }

  /**
   * Repeating the toggle on the same menu: for a spell or field card two toggles show
   * every card as before; for a monster the shown state alternates after the first toggle.
   */
  lemma ToggleDisplayRepeated(g: GameState, menu: ContextMenu)
    ensures var twice := ToggleDisplay(ToggleDisplay(g, menu), menu);
      !menu.location.IsMonster() ==> forall id :: GetCardState(twice, id) == GetCardState(g, id)
    ensures var once := ToggleDisplay(g, menu);
      menu.location.IsMonster() ==>
        GetCardState(ToggleDisplay(ToggleDisplay(once, menu), menu), menu.cardId) == GetCardState(once, menu.cardId)
  {
    var s := GetCardState(g, menu.cardId);
    if menu.location.IsMonster() {
      MonsterCycle(menu.location, s);
    } else {
      SpellFlip(menu.location, s);
    }
  }

  /** The handler's updater for the display toggle. */
  method ToggleDisplayUpdate(prev: GameState, menu: ContextMenu) returns (next: GameState)
    ensures next == ToggleDisplay(prev, menu)
  {
    var recorded := if menu.cardId in prev.cardStates then Some(prev.cardStates[menu.cardId]) else None;
    var cardState := ToggleState(menu.location, recorded);
    next := prev.(cardStates := prev.cardStates[menu.cardId := cardState]);
  }

  /** `setFaceDownDefense`: the card is set face down in defence, whatever its state was. */
  function SetFaceDown(g: GameState, cardId: string): (r: GameState)
    ensures GetCardState(r, cardId) == FaceDownDefense
    ensures forall id | id != cardId :: GetCardState(r, id) == GetCardState(g, id)
    ensures r == g.(cardStates := r.cardStates)
  {
    g.(cardStates := g.cardStates[cardId := FaceDownDefense])
  }

  /** Both orientation actions keep every recorded rotation upright or sideways. */
  lemma OrientationKeepsRotations(g: GameState, menu: ContextMenu)
    requires RotationsValid(g)
    ensures RotationsValid(ToggleDisplay(g, menu))
    ensures RotationsValid(SetFaceDown(g, menu.cardId))
  {
    ShownRotationValid(g, menu.cardId);
    ToggledRotation(menu.location, GetCardState(g, menu.cardId));
  }

  /** Both orientation actions leave every card where it was, so ids stay unique. */
  lemma OrientationKeepsCards(g: GameState, menu: ContextMenu)
    ensures Bag(ToggleDisplay(g, menu)) == Bag(g) && Bag(SetFaceDown(g, menu.cardId)) == Bag(g)
    ensures Unique(g) ==> Unique(ToggleDisplay(g, menu)) && Unique(SetFaceDown(g, menu.cardId))
  {
    var t := ToggleDisplay(g, menu);
    var f := SetFaceDown(g, menu.cardId);
    assert t.deck == g.deck && t.hand == g.hand && t.grave == g.grave && t.extra == g.extra;
    assert t.free == g.free && t.zones == g.zones;
    assert f.deck == g.deck && f.hand == g.hand && f.grave == g.grave && f.extra == g.extra;
    assert f.free == g.free && f.zones == g.zones;
  }

  /**
   * The monster walk-through: freshly placed (default), toggled to face-up defence,
   * toggled back to attack, set face down, toggled to attack again.
   */
  lemma MonsterWalkthrough(g: GameState, cardId: string)
    requires GetCardState(g, cardId) == DefaultState
    ensures var menu := ContextMenu(cardId, Monster1);
      var g1 := ToggleDisplay(g, menu);
      var g2 := ToggleDisplay(g1, menu);
      var g3 := SetFaceDown(g2, cardId);
      var g4 := ToggleDisplay(g3, menu);
      && GetCardState(g1, cardId) == FaceUpDefense
      && GetCardState(g2, cardId) == DefaultState
      && GetCardState(g3, cardId) == FaceDownDefense
      && GetCardState(g4, cardId) == DefaultState
  {
  }
}

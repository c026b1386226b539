/**
 * Where a card is: the search of `findCardLocation` (the ordered zones in the
 * order deck, hand, grave, extra, free, then the slots in key order) and the
 * card lookup of the drag handler.
 */
module Location {
  import opened Wrappers
  import opened Types
  import opened CardLists

  /** The ordered zones in the order the search visits them. */
  const ArrayZones: seq<ArrayZoneName> := [Deck, Hand, Grave, Extra, Free]

  /** The slot keys in the order of the `zones` record. */
  const SlotKeys: seq<SlotName> := [Monster1, Monster2, Monster3, Spell1, Spell2, Spell3, Field]

  /** Position of a zone in the search order. */
  function Rank(z: ZoneName): (r: nat)
    ensures r < 12
    ensures z.IsArrayZone() <==> r < 5
  {
    match z
    case Deck => 0
    case Hand => 1
    case Grave => 2
    case Extra => 3
    case Free => 4
    case Monster1 => 5
    case Monster2 => 6
    case Monster3 => 7
    case Spell1 => 8
    case Spell2 => 9
    case Spell3 => 10
    case Field => 11
  }

  /** The zone searched at position `k`. */
  function ZoneAt(k: nat): (z: ZoneName)
    requires k < 12
    ensures Rank(z) == k
  {
    if k < 5 then ArrayZones[k] else SlotKeys[k - 5]
  }

  /** Search positions name zones one to one. */
  lemma RankInjective(y: ZoneName, z: ZoneName)
    requires Rank(y) == Rank(z)
    ensures y == z
  {
  }

  /** Zone `z` holds a card with this id (`some(c => c.id === cardId)`, or the slot's occupant has it). */
  predicate Holds(g: GameState, z: ZoneName, id: string)
  {
    exists c | c in Contents(g, z) :: c.id == id
  }

  /** The search from position `k` on: the first zone at or after `k` that holds the id. */
  function Search(g: GameState, id: string, k: nat): (r: Option<ZoneName>)
    requires k <= 12
    ensures r.Some? ==> Holds(g, r.value, id) && k <= Rank(r.value)
    ensures r.Some? ==> forall z :: k <= Rank(z) < Rank(r.value) ==> !Holds(g, z, id)
    ensures r.None? ==> forall z :: k <= Rank(z) ==> !Holds(g, z, id)
    decreases 12 - k
  {
    if k == 12 then None
    else if Holds(g, ZoneAt(k), id) then Some(ZoneAt(k))
    else
      var r := Search(g, id, k + 1);
      assert forall z :: Rank(z) == k ==> z == ZoneAt(k) by {
        forall z | Rank(z) == k ensures z == ZoneAt(k) { RankInjective(z, ZoneAt(k)); }
      }
      r
  }

  /**
   * `findCardLocation`: the first zone in search order that holds the id,
   * or `None` exactly when no zone holds it.
   */
  function Locate(g: GameState, id: string): (r: Option<ZoneName>)
    ensures r.Some? ==> Holds(g, r.value, id)
    ensures r.Some? ==> forall z :: Rank(z) < Rank(r.value) ==> !Holds(g, z, id)
    ensures r.None? <==> forall z :: !Holds(g, z, id)
  {
    Search(g, id, 0)
  }

  /** The first holding zone is determined: any zone that holds the id before all others is the one found. */
  lemma LocateIsFirst(g: GameState, id: string, z: ZoneName)
    requires Holds(g, z, id)
    requires forall y :: Rank(y) < Rank(z) ==> !Holds(g, y, id)
    ensures Locate(g, id) == Some(z)
  {
    var w := Locate(g, id).value;
    if Rank(w) != Rank(z) {
      assert false;
    }
    RankInjective(w, z);
  }

  /**
   * `findCardLocation` as written: a loop over the ordered zones, then a loop
   * over the slot keys, returning at the first zone that holds the id.
   */
  method FindCardLocation(g: GameState, cardId: string) returns (loc: Option<ZoneName>)
    ensures loc == Locate(g, cardId)
  {
    for i := 0 to |ArrayZones|
      invariant forall z :: Rank(z) < i ==> !Holds(g, z, cardId)
    {
      var zone := ArrayZones[i];
      if exists c | c in Pile(g, zone) :: c.id == cardId {
        assert Rank(zone) == i;
        LocateIsFirst(g, cardId, zone);
        return Some(zone);
      }
      assert forall z :: Rank(z) == i ==> z == zone by {
        forall z | Rank(z) == i ensures z == zone { RankInjective(z, zone); }
      }
    }
    for i := 0 to |SlotKeys|
      invariant forall z :: Rank(z) < 5 + i ==> !Holds(g, z, cardId)
    {
      var zone := SlotKeys[i];
      var occupant := g.zones.Get(zone);
      if occupant.Some? && occupant.value.id == cardId {
        assert Rank(zone) == 5 + i;
        assert occupant.value in Contents(g, zone);
        LocateIsFirst(g, cardId, zone);
        return Some(zone);
      }
      assert forall z :: Rank(z) == 5 + i ==> z == zone by {
        forall z | Rank(z) == 5 + i ensures z == zone { RankInjective(z, zone); }
      }
    }
    return None;
  }

  /**
   * The first card with the id in a list, as `find(c => c.id === id)`: the card at
   * the position `findIndex` reports, and `None` exactly when no card has the id.
   */
  function First(s: seq<Card>, id: string): (r: Option<Card>)
    ensures r.Some? ==> r.value in s && r.value.id == id
    ensures r.Some? ==> IndexOf(s, id) >= 0 && r.value == s[IndexOf(s, id)]
    ensures r.None? <==> forall c | c in s :: c.id != id
  {
    if s == [] then None
    else if s[0].id == id then Some(s[0])
    else First(s[1..], id)
  }

  /** The drag handler's card lookup: the first card with the id among all cards of the board in search order. */
  function FindCard(g: GameState, id: string): Option<Card>
  {
    First(AllCards(g), id)
  }

  /** A card with the id is found whenever some zone holds the id. */
  lemma FindCardIn(g: GameState, id: string, z: ZoneName)
    requires Holds(g, z, id)
    ensures FindCard(g, id).Some? && FindCard(g, id).value.id == id
  {
    var c :| c in Contents(g, z) && c.id == id;
    ContentsInBag(g, z);
    AllCardsBag(g);
    assert c in multiset(Contents(g, z));
    assert c in multiset(AllCards(g));
  }

  /** On a board that satisfies the invariant, the lookup by a card's id finds exactly that card. */
  lemma FindCardIsCard(g: GameState, c: Card, z: ZoneName)
    requires Unique(g) && c in Contents(g, z)
    ensures FindCard(g, c.id) == Some(c)
  {
    assert Holds(g, z, c.id);
    FindCardIn(g, c.id, z);
    ContentsInBag(g, z);
    AllCardsBag(g);
    assert c in multiset(Contents(g, z));
    assert FindCard(g, c.id).value in multiset(AllCards(g));
  }

  /** On a board that satisfies the invariant, the zone holding a card is the zone found for its id. */
  lemma UniqueLocate(g: GameState, c: Card, z: ZoneName)
    requires Unique(g) && c in Contents(g, z)
    ensures Locate(g, c.id) == Some(z)
  {
    assert Holds(g, z, c.id);
    var w := Locate(g, c.id).value;
    var d :| d in Contents(g, w) && d.id == c.id;
    UniqueMeansOneZone(g, c, d, z, w);
  }
}

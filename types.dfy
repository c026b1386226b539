/**
 * The board snapshot: cards, their orientation, the twelve zones and the
 * `GameState` record that holds them (src/types.ts).
 */
module Types {
  import opened Wrappers

  /** A card. `id` is its identity in every zone and in `cardStates`; `src` is an opaque image reference. */
  datatype Card = Card(id: string, src: string)

  /** Presentation of a card on the field: rotation in degrees and face-down flag. */
  datatype CardState = CardState(rotation: int, hidden: bool)

  /** The state every card has when `cardStates` holds no entry for it. */
  const DefaultState := CardState(0, false)

  /** The twelve zone names; five are ordered zones, seven are single-card slots. */
  datatype ZoneName =
    | Monster1 | Monster2 | Monster3 | Spell1 | Spell2 | Spell3 | Field
    | Deck | Hand | Grave | Extra | Free
  {
    /** The ordered zones (`ArrayZoneName` in the source). */
    predicate IsArrayZone() { Deck? || Hand? || Grave? || Extra? || Free? }

    /** The monster slots, whose display toggle is a three-state cycle. */
    predicate IsMonster() { Monster1? || Monster2? || Monster3? }
  }

  type ArrayZoneName = z: ZoneName | z.IsArrayZone() witness Deck
  type SlotName = z: ZoneName | !z.IsArrayZone() witness Field

  /** The identifier under which a zone is registered as a drop target. */
  function Name(z: ZoneName): string
  {
    match z
    case Monster1 => "monster1"
    case Monster2 => "monster2"
    case Monster3 => "monster3"
    case Spell1 => "spell1"
    case Spell2 => "spell2"
    case Spell3 => "spell3"
    case Field => "field"
    case Deck => "deck"
    case Hand => "hand"
    case Grave => "grave"
    case Extra => "extra"
    case Free => "free"
  }

  /** The zone a drop-target identifier names, if it names one. */
  function ZoneNamed(s: string): (r: Option<ZoneName>)
    ensures r.Some? ==> Name(r.value) == s
    ensures r.None? ==> forall z :: Name(z) != s
  {
    if s == "monster1" then Some(Monster1)
    else if s == "monster2" then Some(Monster2)
    else if s == "monster3" then Some(Monster3)
    else if s == "spell1" then Some(Spell1)
    else if s == "spell2" then Some(Spell2)
    else if s == "spell3" then Some(Spell3)
    else if s == "field" then Some(Field)
    else if s == "deck" then Some(Deck)
    else if s == "hand" then Some(Hand)
    else if s == "grave" then Some(Grave)
    else if s == "extra" then Some(Extra)
    else if s == "free" then Some(Free)
    else None
  }

  /** Distinct zones are registered under distinct identifiers, and each identifier parses back. */
  lemma NameRoundTrip(z: ZoneName)
    ensures ZoneNamed(Name(z)) == Some(z)
  {
  }

  /** The `zones` record: exactly the seven slots, each empty or holding one card. */
  datatype Zones = Zones(
    monster1: Option<Card>, monster2: Option<Card>, monster3: Option<Card>,
    spell1: Option<Card>, spell2: Option<Card>, spell3: Option<Card>,
    field: Option<Card>)
  {
    /** `zones[slot]`. */
    function Get(z: SlotName): Option<Card>
    {
      match z
      case Monster1 => monster1
      case Monster2 => monster2
      case Monster3 => monster3
      case Spell1 => spell1
      case Spell2 => spell2
      case Spell3 => spell3
      case Field => field
    }

    /** The occupants in key order (`Object.values(zones).filter(Boolean)`). */
    function Occupants(): seq<Card>
    {
      OptSeq(monster1) + OptSeq(monster2) + OptSeq(monster3)
      + OptSeq(spell1) + OptSeq(spell2) + OptSeq(spell3) + OptSeq(field)
    }

    /** The multiset of occupants. */
    function Bag(): multiset<Card>
    {
      multiset(OptSeq(monster1)) + multiset(OptSeq(monster2)) + multiset(OptSeq(monster3))
      + multiset(OptSeq(spell1)) + multiset(OptSeq(spell2)) + multiset(OptSeq(spell3))
      + multiset(OptSeq(field))
    }

    /** `zones[slot] = c`: only that slot changes. */
    function Set(z: SlotName, c: Option<Card>): (r: Zones)
      ensures r.Get(z) == c
      ensures forall y: SlotName :: y != z ==> r.Get(y) == Get(y)
    {
      match z
      case Monster1 => this.(monster1 := c)
      case Monster2 => this.(monster2 := c)
      case Monster3 => this.(monster3 := c)
      case Spell1 => this.(spell1 := c)
      case Spell2 => this.(spell2 := c)
      case Spell3 => this.(spell3 := c)
      case Field => this.(field := c)
    }
  }

  /** Writing a slot changes the occupants by exactly the old and the new card of that slot. */
  lemma SetBag(zs: Zones, z: SlotName, c: Option<Card>)
    ensures zs.Set(z, c).Bag() + multiset(OptSeq(zs.Get(z))) == zs.Bag() + multiset(OptSeq(c))
  {
    match z
    case Monster1 => SetBagMonster1(zs, c);
    case Monster2 => SetBagMonster2(zs, c);
    case Monster3 => SetBagMonster3(zs, c);
    case Spell1 => SetBagSpell1(zs, c);
    case Spell2 => SetBagSpell2(zs, c);
    case Spell3 => SetBagSpell3(zs, c);
    case Field => SetBagField(zs, c);
  }

  lemma SetBagMonster1(zs: Zones, c: Option<Card>)
    ensures zs.(monster1 := c).Bag() + multiset(OptSeq(zs.monster1)) == zs.Bag() + multiset(OptSeq(c))
  {
  }

  lemma SetBagMonster2(zs: Zones, c: Option<Card>)
    ensures zs.(monster2 := c).Bag() + multiset(OptSeq(zs.monster2)) == zs.Bag() + multiset(OptSeq(c))
  {
  }

  lemma SetBagMonster3(zs: Zones, c: Option<Card>)
    ensures zs.(monster3 := c).Bag() + multiset(OptSeq(zs.monster3)) == zs.Bag() + multiset(OptSeq(c))
  {
  }

  lemma SetBagSpell1(zs: Zones, c: Option<Card>)
    ensures zs.(spell1 := c).Bag() + multiset(OptSeq(zs.spell1)) == zs.Bag() + multiset(OptSeq(c))
  {
  }

  lemma SetBagSpell2(zs: Zones, c: Option<Card>)
    ensures zs.(spell2 := c).Bag() + multiset(OptSeq(zs.spell2)) == zs.Bag() + multiset(OptSeq(c))
  {
  }

  lemma SetBagSpell3(zs: Zones, c: Option<Card>)
    ensures zs.(spell3 := c).Bag() + multiset(OptSeq(zs.spell3)) == zs.Bag() + multiset(OptSeq(c))
  {
  }

  lemma SetBagField(zs: Zones, c: Option<Card>)
    ensures zs.(field := c).Bag() + multiset(OptSeq(zs.field)) == zs.Bag() + multiset(OptSeq(c))
  {
  }

  const NoOccupants := Zones(None, None, None, None, None, None, None)

  /** A board snapshot: the five ordered zones, the slots and the per-card-id orientation map. */
  datatype GameState = GameState(
    deck: seq<Card>, hand: seq<Card>, grave: seq<Card>, extra: seq<Card>, free: seq<Card>,
    zones: Zones,
    cardStates: map<string, CardState>)

  /** `gameState[zone]` for an ordered zone. */
  function Pile(g: GameState, z: ArrayZoneName): seq<Card>
  {
    match z
    case Deck => g.deck
    case Hand => g.hand
    case Grave => g.grave
    case Extra => g.extra
    case Free => g.free
  }

  /**
   * Every card on the board, in the order deck, hand, grave, extra, free,
   * then the slots in key order (the search list of the drag handler).
   */
  function AllCards(g: GameState): seq<Card>
  {
    g.deck + g.hand + g.grave + g.extra + g.free + g.zones.Occupants()
  }

  /** The multiset of cards in the ordered zones. */
  function PilesBag(g: GameState): multiset<Card>
  {
    multiset(g.deck) + multiset(g.hand) + multiset(g.grave) + multiset(g.extra) + multiset(g.free)
  }

  /** The multiset of cards on the board. */
  function Bag(g: GameState): multiset<Card>
  {
    PilesBag(g) + g.zones.Bag()
  }

  /** The board's cards listed in search order are the board's cards. */
  lemma AllCardsBag(g: GameState)
    ensures multiset(AllCards(g)) == Bag(g)
  {
  }

  /** The cards a zone holds, in order: a pile, or zero or one slot occupant. */
  function Contents(g: GameState, z: ZoneName): seq<Card>
  {
    if z.IsArrayZone() then Pile(g, z) else OptSeq(g.zones.Get(z))
  }

  /** `gameState[zone] = s` for an ordered zone: no other zone and no card state changes. */
  function WithPile(g: GameState, z: ArrayZoneName, s: seq<Card>): (r: GameState)
    ensures Pile(r, z) == s
    ensures forall y: ArrayZoneName :: y != z ==> Pile(r, y) == Pile(g, y)
    ensures r.zones == g.zones && r.cardStates == g.cardStates
  {
    match z
    case Deck => g.(deck := s)
    case Hand => g.(hand := s)
    case Grave => g.(grave := s)
    case Extra => g.(extra := s)
    case Free => g.(free := s)
  }

  /** `gameState.zones[slot] = c`: no other zone and no card state changes. */
  function WithSlot(g: GameState, z: SlotName, c: Option<Card>): (r: GameState)
    ensures r.zones.Get(z) == c
    ensures forall y: SlotName :: y != z ==> r.zones.Get(y) == g.zones.Get(y)
    ensures forall y: ArrayZoneName :: Pile(r, y) == Pile(g, y)
    ensures r.cardStates == g.cardStates
  {
    g.(zones := g.zones.Set(z, c))
  }

  /** Writing a pile changes the board's cards by exactly the old and the new pile. */
  lemma PileBag(g: GameState, z: ArrayZoneName, s: seq<Card>)
    ensures Bag(WithPile(g, z, s)) + multiset(Pile(g, z)) == Bag(g) + multiset(s)
  {
    var g' := WithPile(g, z, s);
    PilesBagAt(g, z, s);
    ShiftSum(g.zones.Bag(), PilesBag(g'), PilesBag(g), multiset(Pile(g, z)), multiset(s));
  }

  lemma PilesBagAt(g: GameState, z: ArrayZoneName, s: seq<Card>)
    ensures PilesBag(WithPile(g, z, s)) + multiset(Pile(g, z)) == PilesBag(g) + multiset(s)
  {
    match z
    case Deck =>
    case Hand =>
    case Grave =>
    case Extra =>
    case Free =>
  }

  /** Writing a slot changes the board's cards by exactly the old and the new occupant. */
  lemma SlotBag(g: GameState, z: SlotName, c: Option<Card>)
    ensures Bag(WithSlot(g, z, c)) + multiset(OptSeq(g.zones.Get(z))) == Bag(g) + multiset(OptSeq(c))
  {
    SetBag(g.zones, z, c);
    var g' := WithSlot(g, z, c);
    assert PilesBag(g') == PilesBag(g);
    ShiftSum(PilesBag(g), g'.zones.Bag(), g.zones.Bag(), multiset(OptSeq(g.zones.Get(z))), multiset(OptSeq(c)));
  }

  /** Adding the same multiset on both sides keeps an equation. */
  lemma ShiftSum<T>(a: multiset<T>, b': multiset<T>, b: multiset<T>, x: multiset<T>, y: multiset<T>)
    requires b' + x == b + y
    ensures (a + b') + x == (a + b) + y
    ensures (b' + a) + x == (b + a) + y
  {
    assert forall e :: ((a + b') + x)[e] == a[e] + (b' + x)[e];
    assert forall e :: ((a + b) + y)[e] == a[e] + (b + y)[e];
  }

  /** Equal amounts added to both sides cancel. */
  lemma Cancel(x: multiset<Card>, y: multiset<Card>, m: multiset<Card>)
    requires x + m == y + m
    ensures x == y
  {
    assert forall e :: x[e] == (x + m)[e] - m[e];
  }

  /** Cards moved between two ordered zones, with nothing else changed, leave the board's cards as they were. */
  lemma MovedBetween(g: GameState, r: GameState, y: ArrayZoneName, z: ArrayZoneName)
    requires y != z
    requires r == WithPile(WithPile(g, y, Pile(r, y)), z, Pile(r, z))
    requires multiset(Pile(r, y)) + multiset(Pile(r, z)) == multiset(Pile(g, y)) + multiset(Pile(g, z))
    ensures Bag(r) == Bag(g)
  {
    var h := WithPile(g, y, Pile(r, y));
    PileBag(g, y, Pile(r, y));
    PileBag(h, z, Pile(r, z));
    Rebalance(Bag(r), Bag(h), Bag(g), multiset(Pile(g, y)), multiset(Pile(g, z)), multiset(Pile(r, y)), multiset(Pile(r, z)));
  }

  /** Two replacements whose parts balance leave the total unchanged. */
  lemma Rebalance<T>(a: multiset<T>, h: multiset<T>, g: multiset<T>, gy: multiset<T>, gz: multiset<T>, ry: multiset<T>, rz: multiset<T>)
    requires h + gy == g + ry && a + gz == h + rz && ry + rz == gy + gz
    ensures a == g
  {
    forall e ensures a[e] == g[e] {
      assert (h + gy)[e] == (g + ry)[e];
      assert (a + gz)[e] == (h + rz)[e];
      assert (ry + rz)[e] == (gy + gz)[e];
    }
  }

  /** The board with zone `z` emptied. */
  function Clear(g: GameState, z: ZoneName): (r: GameState)
  {
    if z.IsArrayZone() then WithPile(g, z, []) else WithSlot(g, z, None)
  }

  /** Emptying a zone removes exactly its cards from the board. */
  lemma ClearBag(g: GameState, z: ZoneName)
    ensures Bag(g) == Bag(Clear(g, z)) + multiset(Contents(g, z))
  {
    if z.IsArrayZone() {
      PileBag(g, z, []);
      assert multiset(Contents(g, z)) == multiset(Pile(g, z));
    } else {
      SlotBag(g, z, None);
      assert multiset(Contents(g, z)) == multiset(OptSeq(g.zones.Get(z)));
    }
  }

  /** Emptying a zone leaves every other zone alone. */
  lemma ClearKeeps(g: GameState, z: ZoneName, y: ZoneName)
    requires y != z
    ensures Contents(Clear(g, z), y) == Contents(g, y)
  {
  }

  /** Every zone's cards are cards of the board. */
  lemma ContentsInBag(g: GameState, z: ZoneName)
    ensures multiset(Contents(g, z)) <= Bag(g)
  {
    ClearBag(g, z);
  }

  /** No card occurs twice, and no two different cards share an id. */
  ghost predicate DistinctIds(b: multiset<Card>)
  {
    && (forall c | c in b :: b[c] == 1)
    && (forall c, d | c in b && d in b && c.id == d.id :: c == d)
  }

  /** The board invariant: every card id is on the board at most once. */
  ghost predicate Unique(g: GameState)
  {
    DistinctIds(Bag(g))
  }

  /** Part of a bag whose ids are distinct has distinct ids. */
  lemma DistinctSub(small: multiset<Card>, big: multiset<Card>)
    requires small <= big && DistinctIds(big)
    ensures DistinctIds(small)
  {
    forall c | c in small ensures small[c] == 1 {
      assert big[c] == 1;
    }
  }

  /** Two different zones hold disjoint parts of the board. */
  lemma TwoZones(g: GameState, z1: ZoneName, z2: ZoneName)
    ensures z1 != z2 ==> multiset(Contents(g, z1)) + multiset(Contents(g, z2)) <= Bag(g)
  {
    if z1 != z2 {
      var cleared := Clear(g, z1);
      ClearBag(g, z1);
      ClearKeeps(g, z1, z2);
      ContentsInBag(cleared, z2);
    }
  }

  /**
   * Under the invariant, two cards with one id are one card in one zone:
   * every id on the board is in exactly one ordered zone or slot.
   */
  lemma UniqueMeansOneZone(g: GameState, c: Card, d: Card, z1: ZoneName, z2: ZoneName)
    requires Unique(g)
    requires c in Contents(g, z1) && d in Contents(g, z2)
    ensures c.id == d.id ==> z1 == z2 && c == d
  {
    TwoZones(g, z1, z2);
    ContentsInBag(g, z1);
    ContentsInBag(g, z2);
    assert c in multiset(Contents(g, z1)) && d in multiset(Contents(g, z2));
    assert c in Bag(g) && d in Bag(g);
  }
}

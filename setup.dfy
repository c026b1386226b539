/**
 * Starting boards: the empty board, the opening deal after a deck is cut
 * (`handleCutComplete`), and the reshuffled restart (`handleShuffleReset`).
 * The random order is a parameter: any reordering of the cards it deals.
 */
module Setup {
  import opened Wrappers
  import opened Types
  import opened Orientation

  /** `emptyGameState`: every zone empty and no card state recorded. */
  const EmptyGameState := GameState([], [], [], [], [], NoOccupants, map[])

  /** The empty board holds no card, so it meets the board invariants. */
  lemma EmptyBoard()
    ensures Bag(EmptyGameState) == multiset{}
    ensures Unique(EmptyGameState) && RotationsValid(EmptyGameState)
  {
  }

  /** `initialState || emptyGameState`: the board a fresh mount starts from when no deck was cut in this session. */
  function InitialFor(initialState: Option<GameState>): (r: GameState)
    ensures initialState.None? ==> r == EmptyGameState
    ensures initialState.Some? ==> r == initialState.value
  {
    initialState.GetOr(EmptyGameState)
  }

  /** The size of the opening hand: four cards, or all of them when fewer (`slice(0, 4)`). */
  function HandSize(n: nat): (k: nat)
    ensures k <= n && k <= 4
    ensures k == 4 || k == n
  {
    if n < 4 then n else 4
  }

  /** The opening hand: the first cards of the shuffled list. */
  function OpeningHand(shuffled: seq<Card>): seq<Card>
  {
    shuffled[..HandSize(|shuffled|)]
  }

  /** The opening deck: the rest of the shuffled list (`slice(4)`). */
  function OpeningDeck(shuffled: seq<Card>): seq<Card>
  {
    shuffled[HandSize(|shuffled|)..]
  }

  /** The opening split is a split: hand then deck is the shuffled list, and the hand has at most four cards. */
  lemma OpeningSplit(shuffled: seq<Card>)
    ensures OpeningHand(shuffled) + OpeningDeck(shuffled) == shuffled
    ensures |OpeningHand(shuffled)| == HandSize(|shuffled|)
    ensures |OpeningHand(shuffled)| < 4 ==> OpeningDeck(shuffled) == []
  {
    assert shuffled == shuffled[..HandSize(|shuffled|)] + shuffled[HandSize(|shuffled|)..];
  }

  /** `handleCutComplete`: deal the shuffled main deck, keep the extra deck as given, leave everything else empty. */
  function CutComplete(main: seq<Card>, extra: seq<Card>, shuffled: seq<Card>): (r: GameState)
    requires multiset(shuffled) == multiset(main)
    ensures r.grave == [] && r.free == [] && r.zones == NoOccupants && r.cardStates == map[]
    ensures r.extra == extra
  {
    GameState(OpeningDeck(shuffled), OpeningHand(shuffled), [], extra, [], NoOccupants, map[])
  }

  /**
   * The opening deal uses exactly the main deck: hand then deck is a reordering of it,
   * with the first four cards (or all of them) in hand; the board holds the main and
   * the extra deck and nothing else.
   */
  lemma CutCompleteDeal(main: seq<Card>, extra: seq<Card>, shuffled: seq<Card>)
    requires multiset(shuffled) == multiset(main)
    ensures var r := CutComplete(main, extra, shuffled);
      && multiset(r.hand + r.deck) == multiset(main)
      && |r.hand| == HandSize(|main|)
      && r.hand + r.deck == shuffled
      && Bag(r) == multiset(main + extra)
  {
    OpeningSplit(shuffled);
    var r := CutComplete(main, extra, shuffled);
    assert multiset(shuffled) == multiset(r.hand) + multiset(r.deck) by {
      assert shuffled == r.hand + r.deck;
    }
    assert |main| == |multiset(main)| == |shuffled|;
  }

  /** Cards with distinct ids deal into a board where every id is in exactly one zone. */
  lemma CutCompleteUnique(main: seq<Card>, extra: seq<Card>, shuffled: seq<Card>)
    requires multiset(shuffled) == multiset(main)
    requires DistinctIds(multiset(main + extra))
    ensures Unique(CutComplete(main, extra, shuffled))
    ensures RotationsValid(CutComplete(main, extra, shuffled))
  {
    CutCompleteDeal(main, extra, shuffled);
  }

  /**
   * `handleShuffleReset`: the starting deck and hand are reshuffled and dealt again;
   * every other zone is taken from the starting board and all card states are cleared.
   */
  function ShuffleReset(initial: GameState, shuffled: seq<Card>): (r: GameState)
    requires multiset(shuffled) == multiset(initial.deck + initial.hand)
    ensures r.cardStates == map[]
    ensures r.grave == initial.grave && r.extra == initial.extra && r.free == initial.free
    ensures r.zones == initial.zones
  {
    initial.(deck := OpeningDeck(shuffled), hand := OpeningHand(shuffled), cardStates := map[])
  }

  /**
   * The reshuffled restart deals the starting deck and hand again, four cards (or all) to
   * the hand, and keeps the starting board's cards and so its invariant.
   */
  lemma ShuffleResetDeal(initial: GameState, shuffled: seq<Card>)
    requires multiset(shuffled) == multiset(initial.deck + initial.hand)
    ensures var r := ShuffleReset(initial, shuffled);
      && r.hand + r.deck == shuffled
      && |r.hand| == HandSize(|initial.deck| + |initial.hand|)
      && Bag(r) == Bag(initial)
      && (Unique(initial) ==> Unique(r))
      && RotationsValid(r)
  {
    OpeningSplit(shuffled);
    var r := ShuffleReset(initial, shuffled);
    assert |shuffled| == |multiset(shuffled)| == |initial.deck + initial.hand|;
    assert multiset(r.deck) + multiset(r.hand) == multiset(initial.deck) + multiset(initial.hand) by {
      assert shuffled == r.hand + r.deck;
    }
    var dealt := initial.(deck := r.deck, hand := r.hand);
    MovedBetween(initial, dealt, Deck, Hand);
    assert Bag(r) == Bag(dealt);
  }

  /**
   * After a page reload no deck was cut in the session, so the starting board is the
   * empty one and either reset leaves an empty board, whatever the board showed.
   */
  lemma ResetsAfterReload(shuffled: seq<Card>)
    requires multiset(shuffled) == multiset(InitialFor(None).deck + InitialFor(None).hand)
    ensures InitialFor(None) == EmptyGameState
    ensures ShuffleReset(InitialFor(None), shuffled) == EmptyGameState
  {
    assert |shuffled| == |multiset(shuffled)| == 0;
  }
}

/**
 * The deck buttons: draw, smart draw, shuffle, return the free zone to the top or
 * the bottom of the deck, and send the top card to the graveyard. Each one whose
 * guard refuses gives `None`: the board is left alone and no history is recorded.
 */
module DeckOps {
  import opened Wrappers
  import opened Types

  /** `handleDraw(count)`: the first `count` deck cards go, in order, to the end of the hand. */
  function Draw(g: GameState, count: nat): (r: Option<GameState>)
    ensures r.Some? <==> count <= |g.deck|
  {
    if |g.deck| < count then None
    else Some(g.(deck := g.deck[count..], hand := g.hand + g.deck[..count]))
  }

  /** Drawing moves the boundary between hand and deck: hand followed by deck is the same list, the hand grows by `count`. */
  lemma DrawMovesBoundary(g: GameState, count: nat)
    requires count <= |g.deck|
    ensures var r := Draw(g, count).value;
      && r.hand + r.deck == g.hand + g.deck
      && |r.hand| == |g.hand| + count
      && r.hand[..|g.hand|] == g.hand
      && r == g.(deck := r.deck, hand := r.hand)
  {
    var r := Draw(g, count).value;
    assert g.deck == g.deck[..count] + g.deck[count..];
    assert r.hand + r.deck == g.hand + (g.deck[..count] + g.deck[count..]);
  }

  /** Drawing `a` cards and then `b` cards is drawing `a + b` cards. */
  lemma DrawTwice(g: GameState, a: nat, b: nat)
    requires a + b <= |g.deck|
    ensures Draw(g, a).Some? && Draw(Draw(g, a).value, b) == Draw(g, a + b)
  {
    var r := Draw(g, a).value;
    assert r.deck[b..] == g.deck[a + b..];
    assert r.deck[..b] == g.deck[a..a + b];
    assert g.deck[..a + b] == g.deck[..a] + g.deck[a..a + b];
    assert r.hand + r.deck[..b] == g.hand + g.deck[..a + b];
  }

  /** A draw keeps the board's cards and so the uniqueness of ids. */
  lemma DrawConserves(g: GameState, count: nat)
    requires count <= |g.deck|
    ensures Bag(Draw(g, count).value) == Bag(g)
    ensures Unique(g) ==> Unique(Draw(g, count).value)
  {
    var r := Draw(g, count).value;
    assert g.deck == g.deck[..count] + g.deck[count..];
    MovedBetween(g, r, Deck, Hand);
  }

  /** `handleSmartDraw`: fill the hand up to five cards, or draw one when it already holds five or more. */
  function SmartDrawCount(g: GameState): (n: nat)
    ensures n >= 1
    ensures |g.hand| < 5 ==> |g.hand| + n == 5
    ensures |g.hand| >= 5 ==> n == 1
  {
    if |g.hand| < 5 then 5 - |g.hand| else 1
  }

  /** The smart draw: a draw of `SmartDrawCount` cards. */
  function SmartDraw(g: GameState): Option<GameState>
  {
    Draw(g, SmartDrawCount(g))
  }

  /** A smart draw that succeeds leaves five cards in a short hand, or one more card in a full one. */
  lemma SmartDrawHandSize(g: GameState)
    requires SmartDraw(g).Some?
    ensures |SmartDraw(g).value.hand| == if |g.hand| < 5 then 5 else |g.hand| + 1
  {
    DrawMovesBoundary(g, SmartDrawCount(g));
  }

  /** A smart draw is refused exactly when the deck is too short for it. */
  lemma SmartDrawGuard(g: GameState)
    ensures SmartDraw(g).None? <==> |g.deck| < SmartDrawCount(g)
  {
  }

  /** `handleShuffle` once confirmed: the deck is replaced by the given reordering of itself. */
  function Shuffle(g: GameState, shuffled: seq<Card>): (r: GameState)
    requires multiset(shuffled) == multiset(g.deck)
    ensures r.deck == shuffled
  {
    g.(deck := shuffled)
  }

  /** A shuffle keeps the board's cards and changes nothing but the deck's order. */
  lemma ShuffleConserves(g: GameState, shuffled: seq<Card>)
    requires multiset(shuffled) == multiset(g.deck)
    ensures Bag(Shuffle(g, shuffled)) == Bag(g)
    ensures Unique(g) ==> Unique(Shuffle(g, shuffled))
    ensures Shuffle(g, shuffled) == WithPile(g, Deck, shuffled)
  {
    PileBag(g, Deck, shuffled);
    Cancel(Bag(Shuffle(g, shuffled)), Bag(g), multiset(g.deck));
  }

  /** `handleReturnFreeToTop`: the free zone, in order, goes on top of the deck. */
  function ReturnFreeToTop(g: GameState): (r: Option<GameState>)
    ensures r.Some? <==> g.free != []
  {
    if |g.free| == 0 then None
    else Some(g.(deck := g.free + g.deck, free := []))
  }

  /** `handleReturnFreeToBottom`: the free zone, in order, goes under the deck. */
  function ReturnFreeToBottom(g: GameState): (r: Option<GameState>)
    ensures r.Some? <==> g.free != []
  {
    if |g.free| == 0 then None
    else Some(g.(deck := g.deck + g.free, free := []))
  }

  /**
   * Returning the free zone empties it and keeps the board's cards: the deck gains the
   * free cards on top (or underneath) in their order, and nothing else changes.
   */
  lemma ReturnFreeConserves(g: GameState)
    requires g.free != []
    ensures var top := ReturnFreeToTop(g).value;
      && top == g.(deck := top.deck, free := [])
      && top.deck[..|g.free|] == g.free && top.deck[|g.free|..] == g.deck
      && Bag(top) == Bag(g) && (Unique(g) ==> Unique(top))
    ensures var bottom := ReturnFreeToBottom(g).value;
      && bottom == g.(deck := bottom.deck, free := [])
      && bottom.deck[..|g.deck|] == g.deck && bottom.deck[|g.deck|..] == g.free
      && Bag(bottom) == Bag(g) && (Unique(g) ==> Unique(bottom))
  {
    MovedBetween(g, ReturnFreeToTop(g).value, Deck, Free);
    MovedBetween(g, ReturnFreeToBottom(g).value, Deck, Free);
  }

  /** `handleSendTopToGrave`: the deck's top card becomes the graveyard's first card. */
  function SendTopToGrave(g: GameState): (r: Option<GameState>)
    ensures r.Some? <==> g.deck != []
  {
    if |g.deck| == 0 then None
    else Some(g.(deck := g.deck[1..], grave := [g.deck[0]] + g.grave))
  }

  /**
   * Sending the top card keeps the board's cards; the grave lists the most recent card
   * first, and nothing but the deck and the grave changes.
   */
  lemma SendTopConserves(g: GameState)
    requires g.deck != []
    ensures var r := SendTopToGrave(g).value;
      && r == g.(deck := r.deck, grave := r.grave)
      && r.grave[0] == g.deck[0] && r.grave[1..] == g.grave
      && [r.grave[0]] + r.deck == g.deck
      && Bag(r) == Bag(g) && (Unique(g) ==> Unique(r))
  {
    var r := SendTopToGrave(g).value;
    assert g.deck == [g.deck[0]] + g.deck[1..];
    MovedBetween(g, r, Deck, Grave);
  }
}

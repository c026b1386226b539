/**
 * The list operations the drag handler applies to an ordered zone:
 * `filter` by id, `findIndex` by id, `splice` insertion and dnd-kit's `arrayMove`.
 */
module CardLists {
  import opened Types

  /**
   * `s.filter(c => c.id !== id)`: every card with the id is dropped and every other
   * card is kept as often as it occurs; `RemoveIdAt` gives the order.
   */
  function RemoveId(s: seq<Card>, id: string): (r: seq<Card>)
    ensures forall c :: c in r <==> c in s && c.id != id
    ensures multiset(r) <= multiset(s)
    ensures forall c: Card | c.id != id :: multiset(r)[c] == multiset(s)[c]
  {
    if s == [] then []
    else
      assert s == [s[0]] + s[1..];
      if s[0].id == id then RemoveId(s[1..], id)
      else [s[0]] + RemoveId(s[1..], id)
  }

  /** Filtering out an id no card has changes nothing. */
  lemma {:induction false} RemoveAbsent(s: seq<Card>, id: string)
    requires forall c | c in s :: c.id != id
    ensures RemoveId(s, id) == s
  {
    if s != [] {
      RemoveAbsent(s[1..], id);
      assert s == [s[0]] + s[1..];
    }
  }

  /** In a zone whose ids are distinct, no later card shares the first card's id. */
  lemma DistinctHead(s: seq<Card>)
    requires DistinctIds(multiset(s)) && s != []
    ensures forall d | d in s[1..] :: d.id != s[0].id
  {
    assert s == [s[0]] + s[1..];
    forall d | d in s[1..] ensures d.id != s[0].id {
      assert d in multiset(s) && s[0] in multiset(s);
    }
  }

  /** When the ids of a zone are distinct, filtering out a card's id removes exactly that one card. */
  lemma {:induction false} RemoveUnique(s: seq<Card>, c: Card)
    requires DistinctIds(multiset(s)) && c in s
    ensures multiset(RemoveId(s, c.id)) + multiset{c} == multiset(s)
  {
    assert s == [s[0]] + s[1..];
    var rest := s[1..];
    if s[0] == c {
      DistinctHead(s);
      RemoveAbsent(rest, c.id);
    } else {
      assert s[0] in multiset(s) && c in multiset(s);
      DistinctTail(s);
      RemoveUnique(rest, c);
      RemoveIdCons(s, c.id);
    }
  }

  /** `findIndex(c => c.id === id)`: the first position of the id, or -1 when no card has it. */
  function IndexOf(s: seq<Card>, id: string): (r: int)
    ensures -1 <= r < |s|
    ensures r >= 0 ==> s[r].id == id && forall i :: 0 <= i < r ==> s[i].id != id
    ensures r == -1 <==> forall c | c in s :: c.id != id
  {
    if s == [] then -1
    else if s[0].id == id then 0
    else
      var k := IndexOf(s[1..], id);
      if k == -1 then -1 else k + 1
  }

  /** `splice(k, 0, x)`: `x` is inserted before position `k`. */
  function InsertAt<T>(s: seq<T>, k: nat, x: T): (r: seq<T>)
    requires k <= |s|
    ensures |r| == |s| + 1 && r[k] == x
    ensures r[..k] == s[..k] && r[k + 1..] == s[k..]
  {
    s[..k] + [x] + s[k..]
  }

  /** `splice(k, 1)`: the element at `k` is removed. */
  function RemoveAt<T>(s: seq<T>, k: nat): (r: seq<T>)
    requires k < |s|
    ensures |r| == |s| - 1
    ensures r[..k] == s[..k] && r[k..] == s[k + 1..]
  {
    s[..k] + s[k + 1..]
  }

  /** A card at two positions of a list is counted twice. */
  lemma TwoPositions(s: seq<Card>, j: int, k: nat)
    ensures 0 <= j < k < |s| && s[j] == s[k] ==> multiset(s)[s[k]] >= 2
  {
    if 0 <= j < k < |s| {
      assert s == s[..k] + [s[k]] + s[k + 1..];
      assert s[j] in s[..k];
    }
  }

  /** In a list whose ids are distinct, cards at two positions have different ids. */
  lemma DistinctPositions(s: seq<Card>, j: nat, k: nat)
    requires DistinctIds(multiset(s))
    ensures j < k < |s| ==> s[j].id != s[k].id
  {
    TwoPositions(s, j, k);
    if j < k < |s| {
      assert s[j] in multiset(s) && s[k] in multiset(s);
    }
  }

  /** Filtering a list whose first card has another id keeps that card in front. */
  lemma RemoveIdCons(s: seq<Card>, id: string)
    requires s != [] && s[0].id != id
    ensures RemoveId(s, id) == [s[0]] + RemoveId(s[1..], id)
  {
  }

  /**
   * In a list whose ids are distinct, filtering out the id of the card at position `k`
   * removes that position and keeps every other card in its order.
   */
  lemma {:induction false} RemoveIdAt(s: seq<Card>, k: nat)
    requires DistinctIds(multiset(s)) && k < |s|
    ensures RemoveId(s, s[k].id) == RemoveAt(s, k)
  {
    if k == 0 {
      DistinctHead(s);
      RemoveAbsent(s[1..], s[0].id);
      assert s == [s[0]] + s[1..];
    } else {
      DistinctPositions(s, 0, k);
      RemoveIdCons(s, s[k].id);
      DistinctTail(s);
      RemoveIdAt(s[1..], k - 1);
      RemoveAtCons(s, k);
    }
  }

  /** The tail of a list whose ids are distinct has distinct ids. */
  lemma DistinctTail(s: seq<Card>)
    requires DistinctIds(multiset(s)) && s != []
    ensures DistinctIds(multiset(s[1..]))
  {
    assert s == [s[0]] + s[1..];
    DistinctSub(multiset(s[1..]), multiset(s));
  }

  /** Removing a position after the first keeps the first element in front. */
  lemma RemoveAtCons<T>(s: seq<T>, k: nat)
    requires 0 < k < |s|
    ensures RemoveAt(s, k) == [s[0]] + RemoveAt(s[1..], k - 1)
  {
    assert RemoveAt(s, k) == s[..k] + s[k + 1..];
    assert s[..k] == [s[0]] + s[1..][..k - 1];
    assert s[k + 1..] == s[1..][k..];
  }

  /** dnd-kit's `arrayMove(s, from, to)`: take the element at `from` out, then insert it at `to` of the shortened list. */
  function ArrayMove<T>(s: seq<T>, from: nat, to: nat): (r: seq<T>)
    requires from < |s| && to < |s|
    ensures |r| == |s| && r[to] == s[from]
  {
    InsertAt(RemoveAt(s, from), to, s[from])
  }

  /** Inserting and then removing at one position gives back the list. */
  lemma RemoveInserted<T>(s: seq<T>, k: nat, x: T)
    requires k <= |s|
    ensures RemoveAt(InsertAt(s, k, x), k) == s
  {
    var t := InsertAt(s, k, x);
    assert RemoveAt(t, k) == t[..k] + t[k + 1..];
    assert s == s[..k] + s[k..];
  }

  /** Inserting adds exactly the inserted element. */
  lemma InsertBag<T>(s: seq<T>, k: nat, x: T)
    requires k <= |s|
    ensures multiset(InsertAt(s, k, x)) == multiset(s) + multiset{x}
  {
    assert s == s[..k] + s[k..];
  }

  /** `arrayMove` is a permutation. */
  lemma ArrayMovePermutes<T>(s: seq<T>, from: nat, to: nat)
    requires from < |s| && to < |s|
    ensures multiset(ArrayMove(s, from, to)) == multiset(s)
  {
    var rest := RemoveAt(s, from);
    InsertBag(rest, to, s[from]);
    assert s == s[..from] + [s[from]] + s[from + 1..];
  }

  /** `arrayMove` keeps the relative order of all the other elements. */
  lemma ArrayMoveKeepsOthers<T>(s: seq<T>, from: nat, to: nat)
    requires from < |s| && to < |s|
    ensures RemoveAt(ArrayMove(s, from, to), to) == RemoveAt(s, from)
  {
    RemoveInserted(RemoveAt(s, from), to, s[from]);
  }

  /** Moving back from `to` to `from` undoes a move. */
  lemma ArrayMoveInverse<T>(s: seq<T>, from: nat, to: nat)
    requires from < |s| && to < |s|
    ensures ArrayMove(ArrayMove(s, from, to), to, from) == s
  {
    var moved := ArrayMove(s, from, to);
    ArrayMoveKeepsOthers(s, from, to);
    assert moved[to] == s[from];
    var rest := RemoveAt(s, from);
    assert ArrayMove(moved, to, from) == InsertAt(rest, from, s[from]);
    assert s == s[..from] + [s[from]] + s[from + 1..];
  }
}

/** The suit-specific foundation pile of data_structures/foundation.py. */
module Foundation {
  import opened Wrappers
  import opened Cards

  /** `can_add`: the suit must match; an empty pile takes only an Ace, a
      non-empty one only the rank one above its last card. */
  predicate FoundationAccepts(suit: Suit, pile: seq<Card>, card: Card) {
    if card.suit != suit then false
    else if |pile| == 0 then card.rank == ACE
    else card.rank == pile[|pile| - 1].rank + 1
  }

  /** The pile holds cards of its suit ranked ACE, ACE+1, ... with no gap. */
  predicate Ascending(suit: Suit, pile: seq<Card>) {
    forall k :: 0 <= k < |pile| ==> pile[k].suit == suit && pile[k].rank == ACE + k
  }

  /** `add` keeps the pile ascending, so it never holds more than the 13 cards of its suit
      from a real deck. */
  lemma AcceptKeepsAscending(suit: Suit, pile: seq<Card>, card: Card)
    requires Ascending(suit, pile) && FoundationAccepts(suit, pile, card)
    ensures Ascending(suit, pile + [card])
    ensures card.rank == ACE + |pile|
  {
  }

  /** On an ascending pile, acceptance is exactly "same suit and rank equal to the
      pile's size plus one". */
  lemma AcceptsNextRank(suit: Suit, pile: seq<Card>, card: Card)
    requires Ascending(suit, pile)
    ensures FoundationAccepts(suit, pile, card) <==> card.suit == suit && card.rank == |pile| + 1
  {
  }

  class FoundationPile {
    const suit: Suit
    var cards: seq<Card>

    /** The object invariant `add` and `pop` preserve. */
    ghost predicate Valid()
      reads this
    {
      Ascending(suit, cards)
    }

    constructor (suit: Suit)
      ensures this.suit == suit && cards == [] && Valid()
    {
      this.suit := suit;
      cards := [];
    }

    method CanAdd(card: Card) returns (ok: bool)
      ensures ok == FoundationAccepts(suit, cards, card)
      ensures card.suit != suit ==> !ok
      ensures |cards| == 0 ==> (ok <==> card.suit == suit && card.rank == ACE)
    {
      if card.suit != suit {
        return false;
      }
      if |cards| == 0 {
        return card.rank == ACE;
      }
      return card.rank == cards[|cards| - 1].rank + 1;
    }

    /** `add`: appends and answers true exactly when `can_add` holds; otherwise
        answers false and leaves the pile as it was. */
    method Add(card: Card) returns (ok: bool)
      requires Valid()
      modifies this
      ensures Valid()
      ensures ok == FoundationAccepts(suit, old(cards), card)
      ensures cards == if ok then old(cards) + [card] else old(cards)
    {
      ok := CanAdd(card);
      if ok {
        cards := cards + [card];
      }
    }

    /** `peek`: the last card, or None on an empty pile. */
    function Peek(): (r: Option<Card>)
      reads this
      ensures r.None? <==> cards == []
      ensures r.Some? ==> r.value == cards[|cards| - 1]
    {
      if |cards| > 0 then Some(cards[|cards| - 1]) else None
    }

    /** `pop`: removes exactly the last card and returns it, or None on an empty pile. */
    method Pop() returns (r: Option<Card>)
      requires Valid()
      modifies this
      ensures Valid()
      ensures r == old(Peek())
      ensures cards == if old(cards) == [] then old(cards) else old(cards)[..|old(cards)| - 1]
    {
      if |cards| > 0 {
        r := Some(cards[|cards| - 1]);
        cards := cards[..|cards| - 1];
      } else {
        r := None;
      }
    }

    function Size(): (n: nat)
      reads this
      ensures n == |cards|
    {
      |cards|
    }
  }
}

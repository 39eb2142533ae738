/** The tableau column of data_structures/board.py. */
module Tableau {
  import opened Wrappers
  import opened Cards

  /** The index of the last face-up card of a column, if any
      (`_get_top_revealed_card` returns the card at this index). */
  function TopRevealed(pile: seq<Card>): (r: Option<nat>)
    ensures r.Some? ==> r.value < |pile| && pile[r.value].revealed
    ensures r.Some? ==> forall k :: r.value < k < |pile| ==> !pile[k].revealed
    ensures r.None? ==> forall k :: 0 <= k < |pile| ==> !pile[k].revealed
    decreases |pile|
  {
    if |pile| == 0 then None
    else if pile[|pile| - 1].revealed then Some(|pile| - 1)
    else TopRevealed(pile[..|pile| - 1])
  }

  /** `_opposite_colors`: one card red and the other not. */
  predicate OppositeColours(a: Card, b: Card) {
    IsRed(a) != IsRed(b)
  }

  /** `can_add`: an empty column takes only a King; otherwise the card must be one rank
      below the column's last face-up card and of the other colour, and a column with no
      face-up card takes nothing. */
  predicate BoardAccepts(pile: seq<Card>, card: Card) {
    if |pile| == 0 then card.rank == KING
    else
      match TopRevealed(pile)
      case None => false
      case Some(t) => card.rank == pile[t].rank - 1 && OppositeColours(card, pile[t])
  }

  /** The column after `add(card)`: the card is appended face-up when accepted. */
  function BoardAdd(pile: seq<Card>, card: Card): (r: seq<Card>)
    ensures BoardAccepts(pile, card) ==> r == pile + [card.(revealed := true)]
    ensures !BoardAccepts(pile, card) ==> r == pile
  {
    if BoardAccepts(pile, card) then pile + [card.(revealed := true)] else pile
  }

  /** The column after `reveal_top_card`. */
  function RevealTop(pile: seq<Card>): (r: seq<Card>)
    ensures |r| == |pile|
    ensures |pile| > 0 ==> r[|r| - 1].revealed
    ensures forall k :: 0 <= k < |pile| - 1 ==> r[k] == pile[k]
    ensures |pile| > 0 ==> r[|r| - 1] == pile[|pile| - 1].(revealed := true)
  {
    if |pile| > 0 && !pile[|pile| - 1].revealed then
      pile[..|pile| - 1] + [pile[|pile| - 1].(revealed := true)]
    else pile
  }

  /** Revealing the top card twice is the same as once. */
  lemma RevealTopIdempotent(pile: seq<Card>)
    ensures RevealTop(RevealTop(pile)) == RevealTop(pile)
  {
  }

  /** A column whose last card is face-up accepts a card exactly when it continues
      the descending, alternating run from that last card. */
  lemma AcceptsOnFaceUpTop(pile: seq<Card>, card: Card)
    requires |pile| > 0 && pile[|pile| - 1].revealed
    ensures BoardAccepts(pile, card) <==>
      card.rank == pile[|pile| - 1].rank - 1 && OppositeColours(card, pile[|pile| - 1])
  {
  }

  /** A non-empty column whose cards are all face-down accepts nothing. */
  lemma AllFaceDownAcceptsNothing(pile: seq<Card>, card: Card)
    requires |pile| > 0
    requires forall k :: 0 <= k < |pile| ==> !pile[k].revealed
    ensures !BoardAccepts(pile, card)
  {
  }

  class BoardPile {
    var cards: seq<Card>

    constructor ()
      ensures cards == []
    {
      cards := [];
    }

    /** `_get_top_revealed_card`: scans from the end for the first face-up card. */
    method GetTopRevealedCard() returns (r: Option<Card>)
      ensures r.None? <==> forall k :: 0 <= k < |cards| ==> !cards[k].revealed
      ensures r.Some? ==> exists t :: 0 <= t < |cards| && r.value == cards[t] && r.value.revealed &&
                                       forall k :: t < k < |cards| ==> !cards[k].revealed
      ensures r == (match TopRevealed(cards) case None => None case Some(t) => Some(cards[t]))
    {
      var i := |cards|;
      while i > 0
        invariant 0 <= i <= |cards|
        invariant forall k :: i <= k < |cards| ==> !cards[k].revealed
        invariant TopRevealed(cards) == TopRevealed(cards[..i])
        decreases i
      {
        if cards[i - 1].revealed {
          return Some(cards[i - 1]);
        }
        assert cards[..i][..i - 1] == cards[..i - 1];
        i := i - 1;
      }
      return None;
    }

    method CanAdd(card: Card) returns (ok: bool)
      ensures ok == BoardAccepts(cards, card)
    {
      if |cards| == 0 {
        return card.rank == KING;
      }
      var top := GetTopRevealedCard();
      if top.None? {
        return false;
      }
      if card.rank != top.value.rank - 1 {
        return false;
      }
      return OppositeColours(card, top.value);
    }

    /** `add`: on success the card is turned face-up and appended. */
    method Add(card: Card) returns (ok: bool)
      modifies this
      ensures ok == BoardAccepts(old(cards), card)
      ensures cards == BoardAdd(old(cards), card)
    {
      ok := CanAdd(card);
      if ok {
        cards := cards + [card.(revealed := true)];
      }
    }

    /** `peek`: the last card, or None on an empty column. */
    function Peek(): (r: Option<Card>)
      reads this
      ensures r.None? <==> cards == []
      ensures r.Some? ==> r.value == cards[|cards| - 1]
    {
      if |cards| > 0 then Some(cards[|cards| - 1]) else None
    }

    /** `pop`: removes exactly the last card, or returns None on an empty column. */
    method Pop() returns (r: Option<Card>)
      modifies this
      ensures r == old(Peek())
      ensures cards == if old(cards) == [] then old(cards) else old(cards)[..|old(cards)| - 1]
    {
      if |cards| > 0 {
        r := Some(cards[|cards| - 1]);
        cards := cards[..|cards| - 1];
      } else {
        r := None;
      }
    }

    /** `reveal_top_card`: flips the last card only when it is face-down. */
    method RevealTopCard()
      modifies this
      ensures cards == RevealTop(old(cards))
    {
      if |cards| > 0 && !cards[|cards| - 1].revealed {
        cards := cards[..|cards| - 1] + [cards[|cards| - 1].(revealed := true)];
      }
    }

    function Size(): (n: nat)
      reads this
      ensures n == |cards|
    {
      |cards|
    }
  }
}

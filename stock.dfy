/** The face-down draw pile of data_structures/stock.py: a stack whose top is the last card. */
module Stock {
  import opened Wrappers
  import opened Cards

  class StockPile {
    var cards: seq<Card>

    constructor ()
      ensures cards == []
    {
      cards := [];
    }

    /** `draw`: removes and returns the last card, or returns None and changes nothing. */
    method Draw() returns (r: Option<Card>)
      modifies this
      ensures old(cards) == [] ==> r == None && cards == old(cards)
      ensures old(cards) != [] ==> r == Some(old(cards)[|old(cards)| - 1]) &&
                                   cards == old(cards)[..|old(cards)| - 1]
    {
      if |cards| > 0 {
        r := Some(cards[|cards| - 1]);
        cards := cards[..|cards| - 1];
      } else {
        r := None;
      }
    }

    /** `add`: the card goes on top, face-down. */
    method Add(card: Card)
      modifies this
      ensures cards == old(cards) + [card.(revealed := false)]
    {
      cards := cards + [card.(revealed := false)];
    }

    function IsEmpty(): (b: bool)
      reads this
      ensures b <==> Size() == 0
    {
      |cards| == 0
    }

    function Size(): (n: nat)
      reads this
      ensures n == |cards|
    {
      |cards|
    }
  }

  /** The pile is last-in first-out: a draw right after `add(c)` gives back `c`
      (face-down) and leaves the pile as it was before the add. */
  method AddThenDraw(s: StockPile, c: Card) returns (r: Option<Card>)
    modifies s
    ensures r == Some(c.(revealed := false))
    ensures s.cards == old(s.cards)
  {
    s.Add(c);
    r := s.Draw();
  }
}

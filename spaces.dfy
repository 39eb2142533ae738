/** The rummy prototype's spaces.py: `CardSpace`, the table's list of melded hands. It
    holds references to `Hand` objects of the prototype's cards.py, so changing a hand
    through the space changes that object and no other. */
module RummySpaces {
  import opened PyList
  import opened RummyCards

  class CardSpace {
    var cardSpace: seq<Hand>

    constructor ()
      ensures cardSpace == []
    {
      cardSpace := [];
    }

    /** `add_new_hand`: the hand goes at the end. */
    method AddNewHand(hand: Hand)
      modifies this
      ensures cardSpace == old(cardSpace) + [hand]
    {
      cardSpace := cardSpace + [hand];
    }

    /** `remove_hand`: `pop(idx)`, negative indices counting from the end. */
    method RemoveHand(idx: int)
      modifies this
      requires -|cardSpace| <= idx < |cardSpace|
      ensures var k := PyIndex(idx, |old(cardSpace)|);
        cardSpace == old(cardSpace)[..k] + old(cardSpace)[k + 1..]
      ensures |cardSpace| == |old(cardSpace)| - 1
    {
      var k := PyIndex(idx, |cardSpace|);
      cardSpace := cardSpace[..k] + cardSpace[k + 1..];
    }

    /** `mix_hands`: the cards of `newHand`, in order, appended to hand `idx`. When
        `newHand` is that very hand, its cards are doubled. */
    method MixHands(idx: int, newHand: Hand)
      modifies cardSpace[PyIndex(idx, |cardSpace|)]
      requires -|cardSpace| <= idx < |cardSpace|
      ensures var h := cardSpace[PyIndex(idx, |cardSpace|)];
        h.hand == old(h.hand) + old(newHand.hand) && h.handNumber == old(h.handNumber)
    {
      var h := cardSpace[PyIndex(idx, |cardSpace|)];
      h.AddHand(newHand.GetHandList());
    }

    /** `get_hand`: the hand object itself, not a copy. */
    function GetHand(idx: int): (h: Hand)
      reads this
      requires -|cardSpace| <= idx < |cardSpace|
      ensures h in cardSpace
      ensures idx >= 0 ==> h == cardSpace[idx]
      ensures idx < 0 ==> h == cardSpace[|cardSpace| + idx]
    {
      cardSpace[PyIndex(idx, |cardSpace|)]
    }

    /** `get_card_from_hand`: the card is taken out of that hand. */
    method GetCardFromHand(handIdx: int, cardIdx: int) returns (c: Card)
      requires -|cardSpace| <= handIdx < |cardSpace|
      requires -|GetHand(handIdx).hand| <= cardIdx < |GetHand(handIdx).hand|
      modifies GetHand(handIdx)
      ensures var h := GetHand(handIdx); var k := PyIndex(cardIdx, |old(h.hand)|);
        c == old(h.hand)[k] && h.hand == old(h.hand)[..k] + old(h.hand)[k + 1..] &&
        h.handNumber == old(h.handNumber)
    {
      var h := GetHand(handIdx);
      c := h.ExtractCard(cardIdx);
    }

    /** `add_card_to_hand`: the card goes at the end of that hand. */
    method AddCardToHand(handIdx: int, card: Card)
      requires -|cardSpace| <= handIdx < |cardSpace|
      modifies GetHand(handIdx)
      ensures var h := GetHand(handIdx);
        h.hand == old(h.hand) + [card] && h.handNumber == old(h.handNumber)
    {
      var h := GetHand(handIdx);
      h.AddCard(card);
    }
  }
}

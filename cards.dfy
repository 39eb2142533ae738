/** The solitaire card of data_structures/cards.py: a rank, one of the four suits
    and a face-up flag, with the colour predicates and the display string. */
module Cards {
  import opened Text

  /** The rank of an Ace and of a King (config.py lists ranks 1 to 13). */
  const ACE: int := 1
  const KING: int := 13

  /** The suits "H", "D", "C" and "S". */
  datatype Suit = Hearts | Diamonds | Clubs | Spades

  /** The suit order of config.py's SUITS and of the foundation dictionary. */
  const SUITS: seq<Suit> := [Hearts, Diamonds, Clubs, Spades]

  /** The position of a suit in SUITS. */
  function SuitIndex(s: Suit): (k: nat)
    ensures k < |SUITS| && SUITS[k] == s
  {
    match s
    case Hearts => 0
    case Diamonds => 1
    case Clubs => 2
    case Spades => 3
  }

  datatype Card = Card(rank: int, suit: Suit, revealed: bool)

  /** The one-letter string the source stores as the suit. */
  function SuitLetter(s: Suit): (c: char)
    ensures c in "CDHS"
  {
    match s
    case Hearts => 'H'
    case Diamonds => 'D'
    case Clubs => 'C'
    case Spades => 'S'
  }

  /** `Card(rank, suit)`: a new card is face-down unless `revealed` is passed. */
  function NewCard(rank: int, suit: Suit, revealed: bool := false): (c: Card)
    ensures c.rank == rank && c.suit == suit && c.revealed == revealed
  {
    Card(rank, suit, revealed)
  }

  /** `flip`: turns the card over and changes nothing else. */
  function Flip(c: Card): (r: Card)
    ensures r.revealed != c.revealed
    ensures r.rank == c.rank && r.suit == c.suit
  {
    c.(revealed := !c.revealed)
  }

  predicate IsRed(c: Card) {
    SuitLetter(c.suit) in "HD"
  }

  predicate IsBlack(c: Card) {
    SuitLetter(c.suit) in "CS"
  }

  /** Every card is exactly one of red and black; red means Hearts or Diamonds. */
  lemma ColourExactlyOne(c: Card)
    ensures IsRed(c) != IsBlack(c)
    ensures IsRed(c) <==> c.suit == Hearts || c.suit == Diamonds
    ensures IsBlack(c) <==> c.suit == Clubs || c.suit == Spades
  {
  }

  /** Flipping twice gives back the card. */
  lemma FlipTwice(c: Card)
    ensures Flip(Flip(c)) == c
  {
  }

  /** The rank part of `__repr__`: a letter for Ace and the court cards, else `str(rank)`. */
  function RankName(rank: int): (s: string)
    ensures rank == 1 ==> s == "A"
    ensures rank == 11 ==> s == "J"
    ensures rank == 12 ==> s == "Q"
    ensures rank == 13 ==> s == "K"
    ensures rank !in {1, 11, 12, 13} ==> s == IntToString(rank)
  {
    if rank == 1 then "A"
    else if rank == 11 then "J"
    else if rank == 12 then "Q"
    else if rank == 13 then "K"
    else IntToString(rank)
  }

  function SuitSymbol(s: Suit): char {
    match s
    case Hearts => '♥'
    case Diamonds => '♦'
    case Clubs => '♣'
    case Spades => '♠'
  }

  /** `__repr__`: the rank name followed by the suit symbol. */
  function CardRepr(c: Card): (s: string)
    ensures |s| >= 2 && s[|s| - 1] == SuitSymbol(c.suit)
    ensures s[..|s| - 1] == RankName(c.rank)
  {
    RankName(c.rank) + [SuitSymbol(c.suit)]
  }

  /** Two cards of the 52-card deck display differently unless they have the same rank and suit. */
  lemma ReprDeterminesCard(a: Card, b: Card)
    requires 1 <= a.rank <= 13 && 1 <= b.rank <= 13
    requires CardRepr(a) == CardRepr(b)
    ensures a.rank == b.rank && a.suit == b.suit
  {
    var sa, sb := CardRepr(a), CardRepr(b);
    assert SuitSymbol(a.suit) == sa[|sa| - 1] == sb[|sb| - 1] == SuitSymbol(b.suit);
    assert RankName(a.rank) == sa[..|sa| - 1] == sb[..|sb| - 1] == RankName(b.rank);
    RankNameInjective(a.rank, b.rank);
  }

  lemma RankNameInjective(x: int, y: int)
    requires 1 <= x <= 13 && 1 <= y <= 13
    requires RankName(x) == RankName(y)
    ensures x == y
  {
    if 2 <= x <= 10 && 2 <= y <= 10 {
      DigitsRoundTrip(x);
      DigitsRoundTrip(y);
    }
  }

  /** The characters a rank name is made of. */
  predicate RankChar(c: char) {
    IsDigit(c) || c == 'A' || c == 'J' || c == 'Q' || c == 'K'
  }

  lemma RankNameChars(rank: int)
    requires 1 <= rank <= 13
    ensures AllIn(RankName(rank), RankChar)
  {
    if 2 <= rank <= 10 {
      NatStringDigits(rank);
    }
  }

  /** A card's `repr` can be read back off the front of a longer text: two texts that
      start with the `repr` of a real card are equal only when the cards have the same
      rank and suit and the rest of the texts agree. */
  lemma ReprPrefix(a: Card, restA: string, b: Card, restB: string)
    requires 1 <= a.rank <= 13 && 1 <= b.rank <= 13
    requires CardRepr(a) + restA == CardRepr(b) + restB
    ensures a.rank == b.rank && a.suit == b.suit && restA == restB
  {
    var ya, yb := [SuitSymbol(a.suit)] + restA, [SuitSymbol(b.suit)] + restB;
    assert CardRepr(a) + restA == RankName(a.rank) + ya;
    assert CardRepr(b) + restB == RankName(b.rank) + yb;
    RankNameChars(a.rank);
    RankNameChars(b.rank);
    SplitAtStop(RankName(a.rank), ya, RankName(b.rank), yb, RankChar);
    RankNameInjective(a.rank, b.rank);
    assert SuitSymbol(a.suit) == ya[0] == yb[0] == SuitSymbol(b.suit);
    assert restA == ya[1..] && restB == yb[1..];
  }
}

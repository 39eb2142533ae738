/** The rummy prototype's models.py: a card of suit and rank strings, a FIFO `Queue`, a
    `Deck` of 52 cards held in a queue, and a `Hand` that cards are added to and removed
    from by equality. The shuffles `random.shuffle` performs are given as its draws. */
module RummyModels {
  import opened Wrappers

  /** `Card(suit, rank)`: a suit symbol and a rank name. */
  datatype Card = Card(suit: string, rank: string)

  /** What `==` may compare a card with: another card, or any other Python object. */
  datatype Value = CardValue(card: Card) | OtherValue(id: int)

  /** `Card.__eq__`: suit and rank agree, and nothing but a card is ever equal. */
  predicate CardEquals(self: Card, other: Value) {
    match other
    case CardValue(c) => self.suit == c.suit && self.rank == c.rank
    case OtherValue(_) => false
  }

  /** Card equality is the equality of the two fields, so it is an equivalence, and a
      card equals no other kind of value. */
  lemma CardEqualsIsFieldEquality(a: Card, b: Card, x: int)
    ensures CardEquals(a, CardValue(b)) <==> a == b
    ensures CardEquals(a, CardValue(a))
    ensures CardEquals(a, CardValue(b)) <==> CardEquals(b, CardValue(a))
    ensures !CardEquals(a, OtherValue(x))
  {
  }

  // ---------------------------------------------------------------------------
  // Queue

  class Queue<T> {
    var items: seq<T>

    constructor ()
      ensures items == []
    {
      items := [];
    }

    method Enqueue(item: T)
      modifies this
      ensures items == old(items) + [item]
    {
      items := items + [item];
    }

    /** `dequeue`: the oldest item, or None and no change when the queue is empty. */
    method Dequeue() returns (r: Option<T>)
      modifies this
      ensures old(items) == [] ==> r == None && items == old(items)
      ensures old(items) != [] ==> r == Some(old(items)[0]) && items == old(items)[1..]
      ensures old(items) == (if r.Some? then [r.value] else []) + items
    {
      if IsEmpty() {
        return None;
      }
      r := Some(items[0]);
      items := items[1..];
    }

    function IsEmpty(): (b: bool)
      reads this
      ensures b <==> Size() == 0
    {
      |items| == 0
    }

    function Size(): (n: nat)
      reads this
      ensures n == |items|
    {
      |items|
    }
  }

  // ---------------------------------------------------------------------------
  // The deck

  const SUITS: seq<string> := ["♠", "♥", "♦", "♣"]
  const RANKS: seq<string> := ["A", "2", "3", "4", "5", "6", "7", "8", "9", "10", "J", "Q", "K"]

  /** The list comprehension of `Deck.__init__`: for each suit, each rank. */
  function Unshuffled(): (r: seq<Card>)
    ensures |r| == |SUITS| * |RANKS|
  {
    seq(|SUITS| * |RANKS|, k requires 0 <= k < |SUITS| * |RANKS| => Card(SUITS[k / |RANKS|], RANKS[k % |RANKS|]))
  }

  predicate Distinct(s: seq<Card>) {
    forall i, j :: 0 <= i < j < |s| ==> s[i] != s[j]
  }

  lemma SuitsDistinct()
    ensures forall a, b :: 0 <= a < b < |SUITS| ==> SUITS[a] != SUITS[b]
  {
  }

  lemma RanksDistinct()
    ensures forall a, b :: 0 <= a < b < |RANKS| ==> RANKS[a] != RANKS[b]
  {
    forall a, b | 0 <= a < b < |RANKS|
      ensures RANKS[a] != RANKS[b]
    {
      if |RANKS[a]| == |RANKS[b]| {
        assert RANKS[a][0] != RANKS[b][0];
      }
    }
  }

  /** The unshuffled deck: 52 different cards, one of every suit and rank. */
  lemma UnshuffledIsFullDeck()
    ensures |Unshuffled()| == 52
    ensures Distinct(Unshuffled())
    ensures forall s, r :: s in SUITS && r in RANKS ==> Card(s, r) in Unshuffled()
    ensures forall c :: c in Unshuffled() ==> c.suit in SUITS && c.rank in RANKS
  {
    var d := Unshuffled();
    SuitsDistinct();
    RanksDistinct();
    forall i, j | 0 <= i < j < |d|
      ensures d[i] != d[j]
    {
      if i / 13 == j / 13 {
        assert i % 13 != j % 13;
      }
    }
    forall s, r | s in SUITS && r in RANKS
      ensures Card(s, r) in d
    {
      var a :| 0 <= a < |SUITS| && SUITS[a] == s;
      var b :| 0 <= b < |RANKS| && RANKS[b] == r;
      assert d[a * 13 + b] == Card(s, r);
    }
  }

  /** `random.shuffle` of a list: for i from the last index down to 1, the item at i is
      swapped with the one at `draws[k]`, a number from 0 to i. `draws` are the choices the
      random generator makes. */
  predicate ValidDraws(n: nat, draws: seq<nat>) {
    |draws| == (if n == 0 then 0 else n - 1) &&
    forall k :: 0 <= k < |draws| ==> draws[k] <= n - 1 - k
  }

  function Shuffled(s: seq<Card>, draws: seq<nat>): (r: seq<Card>)
    requires ValidDraws(|s|, draws)
    ensures |r| == |s|
    decreases |s|
  {
    if |s| <= 1 then s
    else
      var i := |s| - 1;
      var j := draws[0];
      var swapped := s[i := s[j]][j := s[i]];
      Shuffled(swapped[..i], draws[1..]) + [swapped[i]]
  }

  lemma SwapMultiset(s: seq<Card>, i: nat, j: nat)
    requires i < |s| && j < |s|
    ensures multiset(s[i := s[j]][j := s[i]]) == multiset(s)
  {
  }

  /** A shuffle only reorders the list. */
  lemma {:induction false} ShuffledPermutes(s: seq<Card>, draws: seq<nat>)
    requires ValidDraws(|s|, draws)
    ensures multiset(Shuffled(s, draws)) == multiset(s)
    decreases |s|
  {
    if |s| > 1 {
      var i := |s| - 1;
      var swapped := s[i := s[draws[0]]][draws[0] := s[i]];
      SwapMultiset(s, i, draws[0]);
      ShuffledPermutes(swapped[..i], draws[1..]);
      assert swapped == swapped[..i] + [swapped[i]];
    }
  }

  /** Cards that occur at most once still occur at most once after a reordering. */
  lemma PermutationKeepsDistinct(s: seq<Card>, t: seq<Card>)
    requires multiset(s) == multiset(t) && Distinct(s)
    ensures Distinct(t)
  {
    forall c | c in multiset(s)
      ensures multiset(s)[c] == 1
    {
      DistinctOnce(s, c);
    }
    forall i, j | 0 <= i < j < |t|
      ensures t[i] != t[j]
    {
      if t[i] == t[j] {
        TwiceCounted(t, i, j);
      }
    }
  }

  lemma {:induction false} DistinctOnce(s: seq<Card>, c: Card)
    requires Distinct(s) && c in s
    ensures multiset(s)[c] == 1
    decreases |s|
  {
    var last := s[|s| - 1];
    var front := s[..|s| - 1];
    assert s == front + [last];
    if c == last {
      assert c !in front;
    } else {
      DistinctOnce(front, c);
    }
  }

  lemma {:induction false} TwiceCounted(t: seq<Card>, i: nat, j: nat)
    requires i < j < |t| && t[i] == t[j]
    ensures multiset(t)[t[i]] >= 2
  {
    assert t == t[..i] + [t[i]] + t[i + 1..j] + [t[j]] + t[j + 1..];
  }

  // ---------------------------------------------------------------------------
  // Deck

  class Deck {
    var cards: Queue<Card>

    /** `__init__`: the 52 cards, shuffled, enqueued in the shuffled order. */
    constructor (draws: seq<nat>)
      requires ValidDraws(|Unshuffled()|, draws)
      ensures fresh(cards) && cards.items == Shuffled(Unshuffled(), draws)
    {
      var shuffled := Shuffled(Unshuffled(), draws);
      var q := new Queue<Card>();
      for k := 0 to |shuffled|
        invariant q.items == shuffled[..k]
      {
        q.Enqueue(shuffled[k]);
      }
      assert shuffled[..|shuffled|] == shuffled;
      cards := q;
    }

    /** `shuffle`: the cards dequeued in order into a list, the list shuffled, and the
        list enqueued again. */
    method Shuffle(draws: seq<nat>)
      modifies cards
      requires ValidDraws(|cards.items|, draws)
      ensures cards.items == Shuffled(old(cards.items), draws)
    {
      var list := [];
      while !cards.IsEmpty()
        invariant list + cards.items == old(cards.items)
        decreases |cards.items|
      {
        var c := cards.Dequeue();
        list := list + [c.value];
      }
      assert list == old(cards.items);
      list := Shuffled(list, draws);
      for k := 0 to |list|
        invariant cards.items == list[..k]
      {
        cards.Enqueue(list[k]);
      }
      assert list[..|list|] == list;
    }

    /** `draw`: the card at the front, or None from an empty deck. */
    method Draw() returns (c: Option<Card>)
      modifies cards
      ensures old(cards.items) == [] ==> c == None && cards.items == []
      ensures old(cards.items) != [] ==> c == Some(old(cards.items)[0]) && cards.items == old(cards.items)[1..]
    {
      c := cards.Dequeue();
    }

    /** `deal`: up to `numCards` cards from the front, in queue order; fewer when the deck
        runs out, none when `numCards` is not positive. */
    method Deal(numCards: int) returns (dealt: seq<Card>)
      modifies cards
      ensures var k := if numCards <= 0 then 0 else if numCards < |old(cards.items)| then numCards else |old(cards.items)|;
        dealt == old(cards.items)[..k] && cards.items == old(cards.items)[k..]
    {
      dealt := [];
      var rounds := if numCards < 0 then 0 else numCards;
      for t := 0 to rounds
        invariant var k := if t < |old(cards.items)| then t else |old(cards.items)|;
          dealt == old(cards.items)[..k] && cards.items == old(cards.items)[k..]
      {
        if !cards.IsEmpty() {
          var c := cards.Dequeue();
          dealt := dealt + [c.value];
        }
      }
    }
  }

  /** A new deck holds 52 different cards, one of every suit and rank. */
  lemma NewDeckIsFullDeck(draws: seq<nat>)
    requires ValidDraws(|Unshuffled()|, draws)
    ensures |Shuffled(Unshuffled(), draws)| == 52
    ensures Distinct(Shuffled(Unshuffled(), draws))
    ensures forall c :: c in Shuffled(Unshuffled(), draws) <==> c.suit in SUITS && c.rank in RANKS
  {
    var d := Shuffled(Unshuffled(), draws);
    UnshuffledIsFullDeck();
    ShuffledPermutes(Unshuffled(), draws);
    PermutationKeepsDistinct(Unshuffled(), d);
    forall c
      ensures c in d <==> c in Unshuffled()
    {
      assert c in d <==> c in multiset(d);
    }
  }

  // ---------------------------------------------------------------------------
  // Hand

  /** The index of the first card equal to `c`. */
  function FirstIndex(s: seq<Card>, c: Card): (k: nat)
    requires c in s
    ensures k < |s| && s[k] == c && c !in s[..k]
  {
    if s[0] == c then 0
    else
      assert c in s[1..];
      FirstIndex(s[1..], c) + 1
  }

  /** `list.remove`: the first card equal to `c` is taken out. */
  function RemoveFirst(s: seq<Card>, c: Card): (r: seq<Card>)
    requires c in s
    ensures |r| == |s| - 1
  {
    if s[0] == c then s[1..]
    else
      assert c in s[1..];
      [s[0]] + RemoveFirst(s[1..], c)
  }

  /** Removing takes out exactly the first equal card: the cards before it and after it
      stay, in order, and one copy of `c` is gone. */
  lemma {:induction false} RemoveFirstCutsFirst(s: seq<Card>, c: Card)
    requires c in s
    ensures RemoveFirst(s, c) == s[..FirstIndex(s, c)] + s[FirstIndex(s, c) + 1..]
    ensures multiset(RemoveFirst(s, c)) == multiset(s) - multiset{c}
  {
    var k := FirstIndex(s, c);
    RemoveFirstAt(s, c);
    assert s == s[..k] + [c] + s[k + 1..];
  }

  lemma {:induction false} RemoveFirstAt(s: seq<Card>, c: Card)
    requires c in s
    ensures RemoveFirst(s, c) == s[..FirstIndex(s, c)] + s[FirstIndex(s, c) + 1..]
  {
    if s[0] != c {
      var t := s[1..];
      assert c in t;
      RemoveFirstAt(t, c);
      var k := FirstIndex(t, c);
      assert FirstIndex(s, c) == k + 1;
      assert s[..k + 1] == [s[0]] + t[..k];
      assert s[k + 2..] == t[k + 1..];
    }
  }

  class Hand {
    var cards: seq<Card>

    constructor ()
      ensures cards == []
    {
      cards := [];
    }

    method AddCard(card: Card)
      modifies this
      ensures cards == old(cards) + [card]
    {
      cards := cards + [card];
    }

    /** `remove_card`: True after removing the first equal card, or False with the hand
        unchanged when no card equals it. */
    method RemoveCard(card: Card) returns (removed: bool)
      modifies this
      ensures removed <==> card in old(cards)
      ensures removed ==> cards == RemoveFirst(old(cards), card)
      ensures !removed ==> cards == old(cards)
    {
      if card in cards {
        cards := RemoveFirst(cards, card);
        return true;
      }
      return false;
    }
  }

  /** A player: a name and the hand cards are drawn into and discarded from. */
  class Player {
    const name: string
    const hand: Hand

    constructor (name: string)
      ensures this.name == name && fresh(hand) && hand.cards == []
    {
      this.name := name;
      hand := new Hand();
    }

    method DrawCard(card: Card)
      modifies hand
      ensures hand.cards == old(hand.cards) + [card]
    {
      hand.AddCard(card);
    }

    method DiscardCard(card: Card) returns (removed: bool)
      modifies hand
      ensures removed <==> card in old(hand.cards)
      ensures removed ==> hand.cards == RemoveFirst(old(hand.cards), card)
      ensures !removed ==> hand.cards == old(hand.cards)
    {
      removed := hand.RemoveCard(card);
    }
  }
}

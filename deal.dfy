/** The deck and the opening deal of main.py: `create_deck` builds the 52 cards suit by
    suit, and `deal_cards` gives column i of the tableau i + 1 cards, only the last of
    them face-up, and puts every other card face-down on the stock. */
module Deal {
  import opened Cards
  import opened GameState

  /** BOARD_COLUMNS of config.py. */
  const BOARD_COLUMNS: nat := 7

  /** The inner loop of `create_deck`: one card of the suit per rank of RANKS (1 to 13),
      each face-down as `Card(rank, suit)` makes it. */
  function SuitCards(suit: Suit): (r: seq<Card>)
    ensures |r| == KING
    ensures forall k :: 0 <= k < |r| ==> r[k] == Card(k + 1, suit, false)
  {
    seq(KING, k requires 0 <= k < KING => Card(k + 1, suit, false))
  }

  /** The cards of the first `n` suits of SUITS, in the order the two loops append them. */
  function DeckUpTo(n: nat): seq<Card>
    requires n <= |SUITS|
  {
    if n == 0 then [] else DeckUpTo(n - 1) + SuitCards(SUITS[n - 1])
  }

  /** The deck `create_deck` builds before it shuffles. */
  function FullDeck(): seq<Card> {
    DeckUpTo(|SUITS|)
  }

  /** A real card: a rank of RANKS and, as dealt, face-down. */
  predicate IsDeckCard(c: Card) {
    ACE <= c.rank <= KING && !c.revealed
  }

  predicate Distinct(s: seq<Card>) {
    forall i, j :: 0 <= i < j < |s| ==> s[i] != s[j]
  }

  /** Every card of the first `n` suits is a real card of one of those suits. */
  lemma {:induction false} DeckUpToCards(n: nat)
    requires n <= |SUITS|
    ensures |DeckUpTo(n)| == KING * n
    ensures forall k :: 0 <= k < |DeckUpTo(n)| ==>
      IsDeckCard(DeckUpTo(n)[k]) && SuitIndex(DeckUpTo(n)[k].suit) < n
  {
    if n > 0 {
      DeckUpToCards(n - 1);
      var front := DeckUpTo(n - 1);
      var run := SuitCards(SUITS[n - 1]);
      var d := DeckUpTo(n);
      assert d == front + run;
      forall k | 0 <= k < |d|
        ensures IsDeckCard(d[k]) && SuitIndex(d[k].suit) < n
      {
        if k >= |front| {
          assert d[k] == run[k - |front|];
        } else {
          assert d[k] == front[k];
        }
      }
    }
  }

  /** Every real card of the first `n` suits is there. */
  lemma {:induction false} DeckUpToComplete(n: nat)
    requires n <= |SUITS|
    ensures forall c :: IsDeckCard(c) && SuitIndex(c.suit) < n ==> c in DeckUpTo(n)
  {
    if n > 0 {
      DeckUpToComplete(n - 1);
      var front := DeckUpTo(n - 1);
      var run := SuitCards(SUITS[n - 1]);
      assert DeckUpTo(n) == front + run;
      forall c | IsDeckCard(c) && SuitIndex(c.suit) < n
        ensures c in front + run
      {
        if SuitIndex(c.suit) == n - 1 {
          assert c == run[c.rank - 1];
        } else {
          assert c in front;
        }
      }
    }
  }

  /** No card of the first `n` suits comes twice. */
  lemma {:induction false} DeckUpToDistinct(n: nat)
    requires n <= |SUITS|
    ensures Distinct(DeckUpTo(n))
  {
    if n > 0 {
      DeckUpToDistinct(n - 1);
      DeckUpToCards(n - 1);
      var front := DeckUpTo(n - 1);
      var run := SuitCards(SUITS[n - 1]);
      var d := DeckUpTo(n);
      assert d == front + run;
      forall i, j | 0 <= i < j < |d|
        ensures d[i] != d[j]
      {
        if j < |front| {
          assert d[i] == front[i] && d[j] == front[j];
        } else if i >= |front| {
          assert d[i] == run[i - |front|] && d[j] == run[j - |front|];
        } else {
          assert d[i] == front[i];
          assert d[j] == run[j - |front|];
        }
      }
    }
  }

  /** `create_deck` yields 52 different cards, and every card of every suit and rank
      is among them. */
  lemma FullDeckHasEveryCardOnce()
    ensures |FullDeck()| == 52
    ensures forall c :: c in FullDeck() <==> IsDeckCard(c)
    ensures Distinct(FullDeck())
  {
    DeckUpToCards(|SUITS|);
    DeckUpToComplete(|SUITS|);
    DeckUpToDistinct(|SUITS|);
    forall c | c in FullDeck()
      ensures IsDeckCard(c)
    {
      var k :| 0 <= k < |FullDeck()| && FullDeck()[k] == c;
    }
  }

  /** `create_deck` up to the shuffle: the loops over SUITS and RANKS. The shuffle is
      left to the caller, which passes the shuffled deck to the game's constructor. */
  method CreateDeck() returns (deck: seq<Card>)
    ensures deck == FullDeck()
  {
    deck := [];
    for s := 0 to |SUITS|
      invariant deck == DeckUpTo(s)
    {
      for rank := ACE to KING + 1
        invariant deck == DeckUpTo(s) + SuitCards(SUITS[s])[..rank - 1]
      {
        assert SuitCards(SUITS[s])[..rank] == SuitCards(SUITS[s])[..rank - 1] + [NewCard(rank, SUITS[s])];
        deck := deck + [NewCard(rank, SUITS[s])];
      }
    }
  }

  // ---------------------------------------------------------------------------
  // The deal

  /** The number of cards dealt to the first `n` columns: 1 + 2 + ... + n. */
  function Dealt(n: nat): (t: nat)
    ensures t >= n
  {
    if n == 0 then 0 else Dealt(n - 1) + n
  }

  /** Column `i` after `deal_cards`: the deck's next i + 1 cards, face-up exactly at
      `j == i`. */
  function DealtColumn(deck: seq<Card>, i: nat): (col: seq<Card>)
    requires Dealt(i + 1) <= |deck|
    ensures |col| == i + 1
  {
    seq(i + 1, j requires 0 <= j < i + 1 => deck[Dealt(i) + j].(revealed := j == i))
  }

  /** `stock.add` of each remaining card: it goes on top, face-down. */
  function FaceDown(cards: seq<Card>): (r: seq<Card>)
    ensures |r| == |cards|
    ensures forall k :: 0 <= k < |cards| ==> r[k] == cards[k].(revealed := false)
  {
    seq(|cards|, k requires 0 <= k < |cards| => cards[k].(revealed := false))
  }

  /** The first `n` columns as dealt. */
  function DealtBoard(deck: seq<Card>, n: nat): (b: seq<seq<Card>>)
    requires Dealt(n) <= |deck|
    ensures |b| == n
    ensures forall i :: 0 <= i < n ==> Dealt(i + 1) <= Dealt(n) && b[i] == DealtColumn(deck, i)
  {
    if n == 0 then []
    else
      DealtBelow(n);
      var front := DealtBoard(deck, n - 1);
      front + [DealtColumn(deck, n - 1)]
  }

  lemma DealtBelow(n: nat)
    ensures forall k: nat :: k <= n ==> Dealt(k) <= Dealt(n)
  {
    forall k: nat | k <= n
      ensures Dealt(k) <= Dealt(n)
    {
      DealtMonotone(k, n);
    }
  }

  lemma {:induction false} DealtMonotone(i: nat, n: nat)
    requires i <= n
    ensures Dealt(i) <= Dealt(n)
    decreases n
  {
    if i < n {
      DealtMonotone(i, n - 1);
    }
  }

  /** The game a fresh `SolitaireGame` holds after dealing `deck`: empty waste and
      foundations, the seven dealt columns, and the rest of the deck on the stock. */
  function Opening(deck: seq<Card>): Game
    requires |deck| >= 28
  {
    assert Dealt(BOARD_COLUMNS) == 28;
    Game(FaceDown(deck[Dealt(BOARD_COLUMNS)..]), [], EmptyFoundations, DealtBoard(deck, BOARD_COLUMNS))
  }

  /** A shuffled deck: any reordering of what `create_deck` builds. */
  predicate IsShuffledDeck(deck: seq<Card>) {
    |deck| == 52 && multiset(deck) == multiset(FullDeck())
  }

  /** The opening position of a shuffled deck: 28 cards on the tableau, column i holding
      i + 1 of them with only its last card face-up, and the other 24 face-down on the
      stock. */
  lemma OpeningShape(deck: seq<Card>)
    requires IsShuffledDeck(deck)
    ensures Dealt(BOARD_COLUMNS) == 28 && |deck| == 52
    ensures |Opening(deck).stock| == 24
    ensures forall k :: 0 <= k < 24 ==> !Opening(deck).stock[k].revealed
    ensures |Opening(deck).board| == BOARD_COLUMNS
    ensures forall i :: 0 <= i < BOARD_COLUMNS ==> |Opening(deck).board[i]| == i + 1
    ensures forall i, j :: 0 <= i < BOARD_COLUMNS && 0 <= j <= i ==>
      (Opening(deck).board[i][j].revealed <==> j == i)
  {
    assert Dealt(BOARD_COLUMNS) == 28;
  }

  /** The dealt columns hold exactly the deck's first cards, faces aside. */
  lemma {:induction false} DealtBoardBag(deck: seq<Card>, n: nat)
    requires Dealt(n) <= |deck|
    ensures BoardBag(DealtBoard(deck, n)) == Bag(deck[..Dealt(n)])
  {
    if n > 0 {
      DealtMonotone(n - 1, n);
      DealtBoardBag(deck, n - 1);
      var lo, hi := Dealt(n - 1), Dealt(n);
      BoardBagSnoc(DealtBoard(deck, n - 1), DealtColumn(deck, n - 1));
      ColumnBag(deck, n - 1);
      SliceBag(deck, lo, hi);
    }
  }

  lemma BoardBagSnoc(front: seq<seq<Card>>, col: seq<Card>)
    ensures BoardBag(front + [col]) == BoardBag(front) + Bag(col)
  {
    assert (front + [col])[..|front|] == front;
  }

  lemma SliceBag(deck: seq<Card>, lo: nat, hi: nat)
    requires lo <= hi <= |deck|
    ensures Bag(deck[..hi]) == Bag(deck[..lo]) + Bag(deck[lo..hi])
  {
    assert deck[..hi] == deck[..lo] + deck[lo..hi];
    BagAppend(deck[..lo], deck[lo..hi]);
  }

  lemma ColumnBag(deck: seq<Card>, i: nat)
    requires Dealt(i + 1) <= |deck|
    ensures Bag(DealtColumn(deck, i)) == Bag(deck[Dealt(i)..Dealt(i + 1)])
  {
    BagIgnoresFaces(DealtColumn(deck, i), deck[Dealt(i)..Dealt(i + 1)]);
  }

  /** Dealing loses and invents no card: the opening position holds exactly the deck's
      cards. */
  lemma OpeningKeepsCards(deck: seq<Card>)
    requires |deck| >= 28
    ensures GameBag(Opening(deck)) == Bag(deck)
  {
    var cut := Dealt(BOARD_COLUMNS);
    DealtBoardBag(deck, BOARD_COLUMNS);
    BagIgnoresFaces(FaceDown(deck[cut..]), deck[cut..]);
    assert deck == deck[..cut] + deck[cut..];
    BagAppend(deck[..cut], deck[cut..]);
    assert FoundationsBag(EmptyFoundations) == multiset{};
  }
}

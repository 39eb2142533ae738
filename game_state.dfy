/** The game snapshot the move advisor works on (the `game` object the search
    functions read: `stock`, `waste`, the `foundations` dictionary and the `Board`
    columns), the move record of game_logic/move_utils.py, and the multiset of
    cards a state holds. */
module GameState {
  import opened Cards

  /** The dictionary `foundations`, one pile per suit. */
  datatype Foundations = Foundations(hearts: seq<Card>, diamonds: seq<Card>, clubs: seq<Card>, spades: seq<Card>)
  {
    function Get(s: Suit): seq<Card> {
      match s
      case Hearts => hearts
      case Diamonds => diamonds
      case Clubs => clubs
      case Spades => spades
    }

    /** The dictionary with the pile of suit `s` replaced and the other three kept. */
    function With(s: Suit, p: seq<Card>): (r: Foundations)
      ensures r.Get(s) == p
      ensures forall t :: t != s ==> r.Get(t) == Get(t)
    {
      match s
      case Hearts => this.(hearts := p)
      case Diamonds => this.(diamonds := p)
      case Clubs => this.(clubs := p)
      case Spades => this.(spades := p)
    }
  }

  const EmptyFoundations := Foundations([], [], [], [])

  /** A game position: the stock and the waste (tops are last), four foundations and the
      tableau columns. */
  datatype Game = Game(stock: seq<Card>, waste: seq<Card>, foundations: Foundations, board: seq<seq<Card>>)

  /** The `Move` record: one case per `move_type` string, with the `details` keys that
      type carries (`card` is only used to describe the move). */
  datatype Move =
    | DrawStock
    | ResetStock
    | WasteToFoundation(card: Card)
    | WasteToBoard(column: nat, card: Card)
    | BoardToFoundation(src: nat, card: Card, startIdx: nat)
    | BoardToBoard(src: nat, dst: nat, card: Card, startIdx: nat)

  /** The `move_type` string. */
  function KindName(m: Move): string {
    match m
    case DrawStock => "draw_stock"
    case ResetStock => "reset_stock"
    case WasteToFoundation(_) => "waste_to_foundation"
    case WasteToBoard(_, _) => "waste_to_Board"
    case BoardToFoundation(_, _, _) => "Board_to_foundation"
    case BoardToBoard(_, _, _, _) => "Board_to_Board"
  }

  /** The source's test `"foundation" in move.move_type`. */
  predicate IsFoundationMove(m: Move) {
    m.WasteToFoundation? || m.BoardToFoundation?
  }

  /** The test `move_type in ["draw_stock", "reset_stock"]`. */
  predicate IsStockMove(m: Move) {
    m.DrawStock? || m.ResetStock?
  }

  /** The three point values imported from the configuration module. */
  datatype Points = Points(foundationCard: real, revealedCard: real, emptyPile: real)

  /** What the search needs from outside the shown code: the point values, and
      `StockPile.recycle_from`, which maps (stock, waste) to the new (stock, waste). */
  datatype Env = Env(points: Points, recycle: (seq<Card>, seq<Card>) -> (seq<Card>, seq<Card>))

  // ---------------------------------------------------------------------------
  // The cards of a state as a multiset of (rank, suit) pairs

  type CardId = (int, Suit)

  function Ids(s: seq<Card>): (r: seq<CardId>)
    ensures |r| == |s|
  {
    seq(|s|, k requires 0 <= k < |s| => (s[k].rank, s[k].suit))
  }

  function Bag(s: seq<Card>): multiset<CardId> {
    multiset(Ids(s))
  }

  function BoardBag(b: seq<seq<Card>>): multiset<CardId>
    decreases |b|
  {
    if b == [] then multiset{} else BoardBag(b[..|b| - 1]) + Bag(b[|b| - 1])
  }

  function FoundationsBag(f: Foundations): multiset<CardId> {
    Bag(f.hearts) + Bag(f.diamonds) + Bag(f.clubs) + Bag(f.spades)
  }

  /** Every (rank, suit) pair held anywhere in the position, with multiplicity. */
  function GameBag(g: Game): multiset<CardId> {
    Bag(g.stock) + Bag(g.waste) + FoundationsBag(g.foundations) + BoardBag(g.board)
  }

  lemma BagAppend(a: seq<Card>, b: seq<Card>)
    ensures Bag(a + b) == Bag(a) + Bag(b)
  {
    assert Ids(a + b) == Ids(a) + Ids(b);
  }

  /** Turning cards over does not change which cards they are. */
  lemma BagIgnoresFaces(a: seq<Card>, b: seq<Card>)
    requires |a| == |b|
    requires forall k :: 0 <= k < |a| ==> a[k].rank == b[k].rank && a[k].suit == b[k].suit
    ensures Bag(a) == Bag(b)
  {
    assert Ids(a) == Ids(b);
  }

  /** Multiset sums cancel. */
  lemma BagCancel(a: multiset<CardId>, b: multiset<CardId>, c: multiset<CardId>)
    requires a + c == b + c
    ensures a == b
  {
    forall x
      ensures a[x] == b[x]
    {
      assert (a + c)[x] == (b + c)[x];
    }
  }

  lemma BagSwap(a: multiset<CardId>, b: multiset<CardId>, c: multiset<CardId>)
    ensures a + b + c == a + c + b
  {
  }

  /** Replacing one pile of the foundation dictionary changes its multiset by that pile only. */
  lemma FoundationsBagWith(f: Foundations, s: Suit, p: seq<Card>)
    ensures FoundationsBag(f.With(s, p)) + Bag(f.Get(s)) == FoundationsBag(f) + Bag(p)
  {
  }

  /** Replacing one tableau column changes the tableau's multiset by that column only. */
  lemma {:induction false} BoardBagUpdate(b: seq<seq<Card>>, i: nat, x: seq<Card>)
    requires i < |b|
    ensures BoardBag(b[i := x]) + Bag(b[i]) == BoardBag(b) + Bag(x)
    decreases |b|
  {
    var n := |b| - 1;
    var c := b[i := x];
    var front := BoardBag(b[..n]);
    assert BoardBag(b) == front + Bag(b[n]);
    BagSwap(front, Bag(b[n]), Bag(x));
    if i == n {
      assert c[..n] == b[..n];
      assert BoardBag(c) == front + Bag(x);
      BagSwap(front, Bag(x), Bag(b[n]));
    } else {
      assert c[..n] == b[..n][i := x] && c[n] == b[n] && b[..n][i] == b[i];
      var changed := BoardBag(b[..n][i := x]);
      assert BoardBag(c) == changed + Bag(b[n]);
      BoardBagUpdate(b[..n], i, x);
      BagSwap(changed, Bag(b[n]), Bag(b[i]));
    }
  }
}

/** `get_greedy_move` of game_logic/greedy_ai.py: seven rules tried in a fixed order,
    each a scan over the piles that returns at its first hit. The policy only reads the
    game, so every rule is a function of the position. */
module Greedy {
  import opened Wrappers
  import opened Cards
  import opened Foundation
  import opened Tableau
  import opened GameState
  import opened Moves
  import opened MoveGeneration

  // ---------------------------------------------------------------------------
  // The rules. Each `for` loop that returns at its first hit is a scan: the scans
  // named First... count up from their index, the ones named Last... count down.

  /** The waste's last card, the one `waste.peek()` returns. */
  function WasteTop(g: Game): Card
    requires |g.waste| > 0
  {
    g.waste[|g.waste| - 1]
  }

  /** Rule 1, waste part: the waste's last card, when its foundation takes it. */
  function WasteToFoundationRule(g: Game): (r: Option<Move>)
    ensures r.Some? <==> (|g.waste| > 0 &&
      FoundationAccepts(WasteTop(g).suit, g.foundations.Get(WasteTop(g).suit), WasteTop(g)))
    ensures r.Some? ==> r.value == WasteToFoundation(WasteTop(g))
  {
    if |g.waste| > 0 then
      var card := WasteTop(g);
      if FoundationAccepts(card.suit, g.foundations.Get(card.suit), card) then Some(WasteToFoundation(card))
      else None
    else None
  }

  /** Column `i` exists, and its last card is face-up and goes onto its foundation. */
  predicate TopGoesUp(g: Game, i: nat) {
    i < |g.board| && |g.board[i]| > 0 &&
    var top := g.board[i][|g.board[i]| - 1];
    top.revealed && FoundationAccepts(top.suit, g.foundations.Get(top.suit), top)
  }

  function FirstTopGoesUp(g: Game, c: nat): (r: Option<nat>)
    ensures r.Some? ==> c <= r.value && TopGoesUp(g, r.value) && forall k: nat :: c <= k < r.value ==> !TopGoesUp(g, k)
    ensures r.None? ==> forall k: nat :: c <= k ==> !TopGoesUp(g, k)
    decreases |g.board| - c
  {
    if c >= |g.board| then None
    else if TopGoesUp(g, c) then Some(c)
    else FirstTopGoesUp(g, c + 1)
  }

  /** Rule 1, tableau part: the lowest column whose face-up last card goes up. */
  function ColumnToFoundationRule(g: Game): (r: Option<Move>)
    ensures r.Some? ==> (r.value.BoardToFoundation? && TopGoesUp(g, r.value.src) &&
      r.value.startIdx == |g.board[r.value.src]| - 1 && r.value.card == g.board[r.value.src][r.value.startIdx] &&
      forall c: nat :: c < r.value.src ==> !TopGoesUp(g, c))
    ensures r.None? ==> forall c: nat :: !TopGoesUp(g, c)
  {
    match FirstTopGoesUp(g, 0)
    case None => None
    case Some(i) => Some(BoardToFoundation(i, g.board[i][|g.board[i]| - 1], |g.board[i]| - 1))
  }

  /** Column `k` is another column than `i` and accepts `card`. */
  predicate OtherAccepts(g: Game, i: nat, card: Card, k: nat) {
    k < |g.board| && k != i && BoardAccepts(g.board[k], card)
  }

  /** The lowest column from `k` on, other than `i`, that accepts `card` (the inner
      `for k` loops of rules 2 and 5). */
  function FirstOtherAccepts(g: Game, i: nat, card: Card, k: nat): (r: Option<nat>)
    ensures r.Some? ==> (k <= r.value && OtherAccepts(g, i, card, r.value) &&
      forall d: nat :: k <= d < r.value ==> !OtherAccepts(g, i, card, d))
    ensures r.None? ==> forall d: nat :: k <= d ==> !OtherAccepts(g, i, card, d)
    decreases |g.board| - k
  {
    if k >= |g.board| then None
    else if OtherAccepts(g, i, card, k) then Some(k)
    else FirstOtherAccepts(g, i, card, k + 1)
  }

  /** The highest face-down card of column `i` below index `j`. */
  function LastHidden(g: Game, i: nat, j: nat): (r: Option<nat>)
    requires i < |g.board| && j <= |g.board[i]|
    ensures r.Some? ==> (r.value < j && !g.board[i][r.value].revealed &&
      forall k: nat :: r.value < k < j ==> g.board[i][k].revealed)
    ensures r.None? ==> forall k: nat :: 0 <= k < j ==> g.board[i][k].revealed
  {
    if j == 0 then None
    else if !g.board[i][j - 1].revealed then Some(j - 1)
    else LastHidden(g, i, j - 1)
  }

  /** Rule 2 for column `i`: with two or more cards, find the highest face-down card;
      when the card just above it is face-up, move the cards from there to the lowest
      other column that accepts that card. The valid-run test is not made. */
  function RevealFrom(g: Game, i: nat): (r: Option<Move>)
    requires i < |g.board|
    ensures r.Some? ==> (r.value.BoardToBoard? && r.value.src == i && 0 < r.value.startIdx < |g.board[i]| &&
      !g.board[i][r.value.startIdx - 1].revealed &&
      (forall k: nat :: r.value.startIdx <= k < |g.board[i]| ==> g.board[i][k].revealed) &&
      r.value.card == g.board[i][r.value.startIdx] &&
      OtherAccepts(g, i, r.value.card, r.value.dst) &&
      forall d: nat :: d < r.value.dst ==> !OtherAccepts(g, i, r.value.card, d))
  {
    var pile := g.board[i];
    if |pile| > 1 then
      match LastHidden(g, i, |pile|)
      case None => None
      case Some(j) =>
        if j < |pile| - 1 && pile[j + 1].revealed then
          match FirstOtherAccepts(g, i, pile[j + 1], 0)
          case None => None
          case Some(k) => Some(BoardToBoard(i, k, pile[j + 1], j + 1))
        else None
    else None
  }

  predicate Reveals(g: Game, i: nat) {
    i < |g.board| && RevealFrom(g, i).Some?
  }

  function FirstReveals(g: Game, c: nat): (r: Option<nat>)
    ensures r.Some? ==> c <= r.value && Reveals(g, r.value) && forall k: nat :: c <= k < r.value ==> !Reveals(g, k)
    ensures r.None? ==> forall k: nat :: c <= k ==> !Reveals(g, k)
    decreases |g.board| - c
  {
    if c >= |g.board| then None
    else if Reveals(g, c) then Some(c)
    else FirstReveals(g, c + 1)
  }

  /** Rule 2: the move of the lowest column for which `RevealFrom` finds one. */
  function RevealRule(g: Game): (r: Option<Move>)
    ensures r.Some? ==> (r.value.BoardToBoard? && r.value.src < |g.board| &&
      r == RevealFrom(g, r.value.src) && forall c: nat :: c < r.value.src ==> !Reveals(g, c))
    ensures r.None? ==> forall c: nat :: !Reveals(g, c)
  {
    match FirstReveals(g, 0)
    case None => None
    case Some(i) => RevealFrom(g, i)
  }

  /** Column `k` exists and accepts `card`. */
  predicate Accepts(g: Game, card: Card, k: nat) {
    k < |g.board| && BoardAccepts(g.board[k], card)
  }

  function FirstAccepts(g: Game, card: Card, k: nat): (r: Option<nat>)
    ensures r.Some? ==> k <= r.value && Accepts(g, card, r.value) && forall d: nat :: k <= d < r.value ==> !Accepts(g, card, d)
    ensures r.None? ==> forall d: nat :: k <= d ==> !Accepts(g, card, d)
    decreases |g.board| - k
  {
    if k >= |g.board| then None
    else if Accepts(g, card, k) then Some(k)
    else FirstAccepts(g, card, k + 1)
  }

  /** Rule 3: the waste's last card to the lowest column that accepts it. */
  function WasteToBoardRule(g: Game): (r: Option<Move>)
    ensures r.Some? ==> (|g.waste| > 0 && r.value.WasteToBoard? && r.value.card == WasteTop(g) &&
      Accepts(g, r.value.card, r.value.column) && forall c: nat :: c < r.value.column ==> !Accepts(g, r.value.card, c))
    ensures r.None? && |g.waste| > 0 ==> forall c: nat :: !Accepts(g, WasteTop(g), c)
  {
    if |g.waste| > 0 then
      var card := WasteTop(g);
      match FirstAccepts(g, card, 0)
      case None => None
      case Some(i) => Some(WasteToBoard(i, card))
    else None
  }

  /** Index `idx` of column `j` holds a face-up King that is not the bottom card. */
  predicate RaisedKing(g: Game, j: nat, idx: nat) {
    j < |g.board| && 0 < idx < |g.board[j]| && g.board[j][idx].revealed && g.board[j][idx].rank == 13
  }

  /** The first raised King of column `j` from index `idx` on. */
  function FirstRaisedKing(g: Game, j: nat, idx: nat): (r: Option<nat>)
    requires j < |g.board|
    ensures r.Some? ==> (idx <= r.value && RaisedKing(g, j, r.value) &&
      forall k: nat :: idx <= k < r.value ==> !RaisedKing(g, j, k))
    ensures r.None? ==> forall k: nat :: idx <= k ==> !RaisedKing(g, j, k)
    decreases |g.board[j]| - idx
  {
    if idx >= |g.board[j]| then None
    else if RaisedKing(g, j, idx) then Some(idx)
    else FirstRaisedKing(g, j, idx + 1)
  }

  /** Column `j` is a non-empty column other than `i` holding a raised King. */
  predicate KingSource(g: Game, i: nat, j: nat) {
    j < |g.board| && j != i && |g.board[j]| > 0 && FirstRaisedKing(g, j, 0).Some?
  }

  function FirstKingSource(g: Game, i: nat, j: nat): (r: Option<nat>)
    ensures r.Some? ==> j <= r.value && KingSource(g, i, r.value) && forall k: nat :: j <= k < r.value ==> !KingSource(g, i, k)
    ensures r.None? ==> forall k: nat :: j <= k ==> !KingSource(g, i, k)
    decreases |g.board| - j
  {
    if j >= |g.board| then None
    else if KingSource(g, i, j) then Some(j)
    else FirstKingSource(g, i, j + 1)
  }

  /** Column `i` is empty and some other column can send it a King. */
  predicate KingTarget(g: Game, i: nat) {
    i < |g.board| && |g.board[i]| == 0 && FirstKingSource(g, i, 0).Some?
  }

  function FirstKingTarget(g: Game, c: nat): (r: Option<nat>)
    ensures r.Some? ==> c <= r.value && KingTarget(g, r.value) && forall k: nat :: c <= k < r.value ==> !KingTarget(g, k)
    ensures r.None? ==> forall k: nat :: c <= k ==> !KingTarget(g, k)
    decreases |g.board| - c
  {
    if c >= |g.board| then None
    else if KingTarget(g, c) then Some(c)
    else FirstKingTarget(g, c + 1)
  }

  /** Rule 4: for the lowest empty column that some other column can send a King, the
      first such column's first raised King. The destination's `can_add` is not asked;
      an empty column takes a King anyway. */
  function KingRule(g: Game): (r: Option<Move>)
    ensures r.Some? ==> (r.value.BoardToBoard? && KingTarget(g, r.value.dst) &&
      KingSource(g, r.value.dst, r.value.src) && RaisedKing(g, r.value.src, r.value.startIdx) &&
      r.value.card == g.board[r.value.src][r.value.startIdx] &&
      forall c: nat :: c < r.value.dst ==> !KingTarget(g, c))
    ensures r.None? ==> forall c: nat :: !KingTarget(g, c)
  {
    match FirstKingTarget(g, 0)
    case None => None
    case Some(i) =>
      var j := FirstKingSource(g, i, 0).value;
      var idx := FirstRaisedKing(g, j, 0).value;
      Some(BoardToBoard(j, i, g.board[j][idx], idx))
  }

  /** Index `s` of column `i` holds a face-up card that another column accepts. */
  predicate Movable(g: Game, i: nat, s: nat) {
    i < |g.board| && s < |g.board[i]| && g.board[i][s].revealed && FirstOtherAccepts(g, i, g.board[i][s], 0).Some?
  }

  /** The highest movable index of column `i` below `s`. */
  function LastMovable(g: Game, i: nat, s: nat): (r: Option<nat>)
    ensures r.Some? ==> r.value < s && Movable(g, i, r.value) && forall k: nat :: r.value < k < s ==> !Movable(g, i, k)
    ensures r.None? ==> forall k: nat :: k < s ==> !Movable(g, i, k)
  {
    if s == 0 then None
    else if Movable(g, i, s - 1) then Some(s - 1)
    else LastMovable(g, i, s - 1)
  }

  predicate HasMovable(g: Game, i: nat) {
    i < |g.board| && |g.board[i]| > 0 && LastMovable(g, i, |g.board[i]|).Some?
  }

  function FirstHasMovable(g: Game, c: nat): (r: Option<nat>)
    ensures r.Some? ==> c <= r.value && HasMovable(g, r.value) && forall k: nat :: c <= k < r.value ==> !HasMovable(g, k)
    ensures r.None? ==> forall k: nat :: c <= k ==> !HasMovable(g, k)
    decreases |g.board| - c
  {
    if c >= |g.board| then None
    else if HasMovable(g, c) then Some(c)
    else FirstHasMovable(g, c + 1)
  }

  /** Rule 5: in the lowest column that has one, the highest face-up card another
      column accepts, to the lowest such column. The valid-run test is not made. */
  function AnyBoardRule(g: Game): (r: Option<Move>)
    ensures r.Some? ==> (r.value.BoardToBoard? && HasMovable(g, r.value.src) &&
      Movable(g, r.value.src, r.value.startIdx) &&
      (forall s: nat :: r.value.startIdx < s ==> !Movable(g, r.value.src, s)) &&
      r.value.card == g.board[r.value.src][r.value.startIdx] &&
      OtherAccepts(g, r.value.src, r.value.card, r.value.dst) &&
      (forall d: nat :: d < r.value.dst ==> !OtherAccepts(g, r.value.src, r.value.card, d)) &&
      forall c: nat :: c < r.value.src ==> !HasMovable(g, c))
    ensures r.None? ==> forall c: nat :: !HasMovable(g, c)
  {
    match FirstHasMovable(g, 0)
    case None => None
    case Some(i) =>
      var s := LastMovable(g, i, |g.board[i]|).value;
      var card := g.board[i][s];
      Some(BoardToBoard(i, FirstOtherAccepts(g, i, card, 0).value, card, s))
  }

  /** Rules 6 and 7: draw while the stock has cards, else recycle a non-empty waste. */
  function StockRule(g: Game): (r: Option<Move>)
    ensures r == Some(DrawStock) <==> |g.stock| > 0
    ensures r == Some(ResetStock) <==> |g.stock| == 0 && |g.waste| > 0
    ensures r.None? <==> |g.stock| == 0 && |g.waste| == 0
  {
    if |g.stock| > 0 then Some(DrawStock)
    else if |g.waste| > 0 then Some(ResetStock)
    else None
  }

  /** The rules of `get_greedy_move` in the order it tries them. */
  function Rules(g: Game): (rules: seq<Option<Move>>)
    ensures |rules| == 7
  {
    [WasteToFoundationRule(g), ColumnToFoundationRule(g), RevealRule(g), WasteToBoardRule(g),
     KingRule(g), AnyBoardRule(g), StockRule(g)]
  }

  /** The answer of the first rule from `k` on that yields a move, if any. */
  function FirstFiring(rules: seq<Option<Move>>, k: nat): (r: Option<Move>)
    requires k <= |rules|
    ensures forall i :: k <= i < |rules| && rules[i].Some? && (forall j :: k <= j < i ==> rules[j].None?) ==>
      r == rules[i]
    ensures r.None? <==> forall i :: k <= i < |rules| ==> rules[i].None?
    decreases |rules| - k
  {
    if k == |rules| then None
    else if rules[k].Some? then rules[k]
    else FirstFiring(rules, k + 1)
  }

  /** For seven rules, `FirstFiring` is the chain of tests `get_greedy_move` makes. */
  lemma FirstFiringOfSeven(rules: seq<Option<Move>>)
    requires |rules| == 7
    ensures FirstFiring(rules, 0) ==
      if rules[0].Some? then rules[0] else if rules[1].Some? then rules[1] else
      if rules[2].Some? then rules[2] else if rules[3].Some? then rules[3] else
      if rules[4].Some? then rules[4] else if rules[5].Some? then rules[5] else rules[6]
  {
    assert FirstFiring(rules, 6) == rules[6];
    assert FirstFiring(rules, 5) == if rules[5].Some? then rules[5] else FirstFiring(rules, 6);
    assert FirstFiring(rules, 4) == if rules[4].Some? then rules[4] else FirstFiring(rules, 5);
    assert FirstFiring(rules, 3) == if rules[3].Some? then rules[3] else FirstFiring(rules, 4);
    assert FirstFiring(rules, 2) == if rules[2].Some? then rules[2] else FirstFiring(rules, 3);
    assert FirstFiring(rules, 1) == if rules[1].Some? then rules[1] else FirstFiring(rules, 2);
  }

  /** `get_greedy_move`: the first rule that yields a move decides, and there is no move
      exactly when no rule yields one. */
  function GreedyMove(g: Game): (r: Option<Move>)
    ensures forall i :: 0 <= i < 7 && Rules(g)[i].Some? && (forall j :: 0 <= j < i ==> Rules(g)[j].None?) ==>
      r == Rules(g)[i]
    ensures r.None? <==> forall i :: 0 <= i < 7 ==> Rules(g)[i].None?
  {
    FirstFiringOfSeven(Rules(g));
    var r1 := WasteToFoundationRule(g);
    if r1.Some? then r1 else
    var r1b := ColumnToFoundationRule(g);
    if r1b.Some? then r1b else
    var r2 := RevealRule(g);
    if r2.Some? then r2 else
    var r3 := WasteToBoardRule(g);
    if r3.Some? then r3 else
    var r4 := KingRule(g);
    if r4.Some? then r4 else
    var r5 := AnyBoardRule(g);
    if r5.Some? then r5 else
    StockRule(g)
  }

  /** No tableau or waste rule fires: the only moves left are the stock's. */
  predicate NoBoardRule(g: Game) {
    WasteToFoundationRule(g).None? && ColumnToFoundationRule(g).None? && RevealRule(g).None? &&
    WasteToBoardRule(g).None? && KingRule(g).None? && AnyBoardRule(g).None?
  }

  // ---------------------------------------------------------------------------
  // What the policy promises

  /** A waste card that fits its foundation goes there before anything else. */
  lemma WasteToFoundationComesFirst(g: Game)
    requires |g.waste| > 0
    requires FoundationAccepts(WasteTop(g).suit, g.foundations.Get(WasteTop(g).suit), WasteTop(g))
    ensures GreedyMove(g) == Some(WasteToFoundation(WasteTop(g)))
  {
  }

  /** Every tableau-to-tableau move of the policy names two different existing columns,
      moves the face-up card at its start index, and the destination accepts that card. */
  lemma GreedyBoardMovesFit(g: Game)
    requires GreedyMove(g).Some? && GreedyMove(g).value.BoardToBoard?
    ensures var m := GreedyMove(g).value;
      m.src < |g.board| && m.dst < |g.board| && m.src != m.dst &&
      m.startIdx < |g.board[m.src]| && m.card == g.board[m.src][m.startIdx] && m.card.revealed &&
      BoardAccepts(g.board[m.dst], m.card)
  {
    var m := GreedyMove(g).value;
    if RevealRule(g).Some? {
      assert m == RevealFrom(g, m.src).value;
    } else if KingRule(g).Some? {
      var i := m.dst;
      assert |g.board[i]| == 0;
    }
  }

  /** Drawing is chosen exactly when no tableau or waste rule fires and the stock has
      cards; recycling exactly when none fires, the stock is empty and the waste is not;
      and no move at all only when stock and waste are both empty. */
  lemma GreedyStockMoves(g: Game)
    ensures GreedyMove(g) == Some(DrawStock) <==> NoBoardRule(g) && |g.stock| > 0
    ensures GreedyMove(g) == Some(ResetStock) <==> NoBoardRule(g) && |g.stock| == 0 && |g.waste| > 0
    ensures GreedyMove(g).None? <==> NoBoardRule(g) && |g.stock| == 0 && |g.waste| == 0
  {
  }

  /** The waste goes to the tableau only when no foundation or reveal rule fires, and
      then before any King move or other tableau move is looked at. */
  lemma WasteToBoardBeforeTableau(g: Game)
    requires WasteToFoundationRule(g).None? && ColumnToFoundationRule(g).None? && RevealRule(g).None?
    requires WasteToBoardRule(g).Some?
    ensures GreedyMove(g) == WasteToBoardRule(g)
  {
  }

  /** The foundation moves, the waste-to-tableau move and the stock moves the policy
      picks pass the tests `get_legal_moves` makes. */
  lemma GreedyNonBoardMovesLegal(g: Game)
    requires GreedyMove(g).Some? && !GreedyMove(g).value.BoardToBoard?
    ensures IsLegal(g, GreedyMove(g).value)
  {
    var m := GreedyMove(g).value;
    if m.BoardToFoundation? {
      var pile := g.board[m.src];
      assert ValidSequence(pile, |pile| - 1);
    }
  }

  /** ... and so they are among the moves `get_legal_moves` offers. */
  lemma GreedyNonBoardMovesOffered(g: Game, m: Move)
    requires GreedyMove(g) == Some(m) && !m.BoardToBoard?
    ensures m in LegalMoves(g)
  {
    GreedyNonBoardMovesLegal(g);
    LegalMovesExactly(g, m);
  }

  /** A position in which rule 5 fires: a face-up King of spades with the face-up
      Queen of spades on it, next to an empty column. */
  const SameColourRun: Game := Game([], [], EmptyFoundations, [[Card(13, Spades, true), Card(12, Spades, true)], []])

  /** Rule 5 moves a face-up card with everything above it without asking whether the
      cards form a build run: in `SameColourRun` it picks the King and the Queen on it,
      a move `get_legal_moves` refuses. */
  lemma AnyBoardRuleSkipsRunCheck()
    ensures GreedyMove(SameColourRun) == Some(BoardToBoard(0, 1, Card(13, Spades, true), 0))
    ensures !IsLegal(SameColourRun, BoardToBoard(0, 1, Card(13, Spades, true), 0))
  {
    var g := SameColourRun;
    var king, queen := Card(13, Spades, true), Card(12, Spades, true);
    assert !TopGoesUp(g, 0) && !TopGoesUp(g, 1);
    assert ColumnToFoundationRule(g).None?;
    assert LastHidden(g, 0, 2).None?;
    assert !Reveals(g, 0) && !Reveals(g, 1);
    assert RevealRule(g).None?;
    assert FirstRaisedKing(g, 0, 0).None? by {
      assert !RaisedKing(g, 0, 0) && !RaisedKing(g, 0, 1);
    }
    assert !KingTarget(g, 0) && !KingTarget(g, 1);
    assert KingRule(g).None?;
    assert !Movable(g, 0, 1) by {
      assert !OtherAccepts(g, 0, queen, 0) && !OtherAccepts(g, 0, queen, 1);
    }
    assert Movable(g, 0, 0) by {
      assert OtherAccepts(g, 0, king, 1);
      assert FirstOtherAccepts(g, 0, king, 0) == Some(1);
    }
    assert HasMovable(g, 0);
    assert !StepsDown(g.board[0], 0);
  }

  /** So the move rule 5 picks there is not among the moves `get_legal_moves` offers. */
  lemma AnyBoardRuleMoveNotOffered()
    ensures BoardToBoard(0, 1, Card(13, Spades, true), 0) !in LegalMoves(SameColourRun)
  {
    AnyBoardRuleSkipsRunCheck();
    LegalMovesExactly(SameColourRun, BoardToBoard(0, 1, Card(13, Spades, true), 0));
  }

  /** Applying that move puts the King in the empty column and drops the Queen, which
      the King refuses. */
  lemma AnyBoardRuleMoveDropsCard(env: Env)
    ensures ApplyMove(env, SameColourRun, BoardToBoard(0, 1, Card(13, Spades, true), 0)).board ==
      [[], [Card(13, Spades, true)]]
  {
    var king, queen := Card(13, Spades, true), Card(12, Spades, true);
    assert [king, queen][..1] == [king];
    assert AddRun([], [king]) == [king];
    assert !BoardAccepts([king], queen);
    assert AddRun([], [king, queen]) == [king];
  }

  /** A position in which rule 2 fires: a face-down card under a face-up King of spades
      with the face-up Queen of spades on it, next to an empty column. */
  const HiddenUnderRun: Game :=
    Game([], [], EmptyFoundations, [[Card(5, Hearts, false), Card(13, Spades, true), Card(12, Spades, true)], []])

  /** Rule 2 does not ask for a build run either: in `HiddenUnderRun` it moves the King
      and the Queen on it off the hidden card, a move `get_legal_moves` refuses. */
  lemma RevealRuleSkipsRunCheck()
    ensures GreedyMove(HiddenUnderRun) == Some(BoardToBoard(0, 1, Card(13, Spades, true), 1))
    ensures !IsLegal(HiddenUnderRun, BoardToBoard(0, 1, Card(13, Spades, true), 1))
  {
    var g := HiddenUnderRun;
    var king := Card(13, Spades, true);
    assert !TopGoesUp(g, 0) && !TopGoesUp(g, 1);
    assert ColumnToFoundationRule(g).None?;
    assert LastHidden(g, 0, 3) == Some(0);
    assert FirstOtherAccepts(g, 0, king, 0) == Some(1) by {
      assert !OtherAccepts(g, 0, king, 0) && OtherAccepts(g, 0, king, 1);
    }
    assert Reveals(g, 0);
    assert !StepsDown(g.board[0], 1);
  }
}

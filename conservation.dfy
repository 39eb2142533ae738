/** Card conservation: a generated move other than `reset_stock` (whose effect belongs to
    the unseen `StockPile.recycle_from`) neither creates nor loses a card. A move that
    is not generated can lose one, because `apply_move` pops the card before the
    receiving pile's `add` may refuse it. */
module Conservation {
  import opened Cards
  import opened Foundation
  import opened Tableau
  import opened GameState
  import opened Moves
  import opened MoveGeneration

  lemma BagFaceUp(run: seq<Card>)
    ensures Bag(FaceUp(run)) == Bag(run)
  {
    BagIgnoresFaces(FaceUp(run), run);
  }

  lemma BagRevealTop(pile: seq<Card>)
    ensures Bag(RevealTop(pile)) == Bag(pile)
  {
    BagIgnoresFaces(RevealTop(pile), pile);
  }

  lemma BagSplit(s: seq<Card>, k: nat)
    requires k <= |s|
    ensures Bag(s) == Bag(s[..k]) + Bag(s[k..])
  {
    assert s == s[..k] + s[k..];
    BagAppend(s[..k], s[k..]);
  }

  /** For every move `get_legal_moves` offers except `reset_stock`, the multiset of
      (rank, suit) pairs over stock, waste, foundations and tableau is unchanged. */
  lemma LegalMoveConservesCards(env: Env, g: Game, m: Move)
    requires m in LegalMoves(g) && m != ResetStock
    ensures MoveInRange(g, m)
    ensures GameBag(ApplyMove(env, g, m)) == GameBag(g)
  {
    LegalMovesExactly(g, m);
    match m
    case DrawStock => DrawConserves(env, g);
    case WasteToFoundation(c) => WasteToFoundationConserves(env, g, c);
    case WasteToBoard(column, c) => WasteToBoardConserves(env, g, column, c);
    case BoardToFoundation(src, c, s) => BoardToFoundationConserves(env, g, src, c, s);
    case BoardToBoard(src, dst, c, s) => BoardToBoardConserves(g.board, src, dst, s);
  }

  lemma DrawConserves(env: Env, g: Game)
    requires |g.stock| > 0
    ensures GameBag(ApplyMove(env, g, DrawStock)) == GameBag(g)
  {
    var n := |g.stock|;
    var top := g.stock[n - 1];
    BagSplit(g.stock, n - 1);
    assert g.stock[n - 1..] == [top];
    BagAppend(g.waste, [top.(revealed := true)]);
    BagIgnoresFaces([top.(revealed := true)], [top]);
  }

  /** Putting one card on its suit's pile adds exactly that card to the foundations. */
  lemma FoundationsBagPush(f: Foundations, c: Card)
    ensures FoundationsBag(f.With(c.suit, f.Get(c.suit) + [c])) == FoundationsBag(f) + Bag([c])
  {
    FoundationsBagWith(f, c.suit, f.Get(c.suit) + [c]);
    BagAppend(f.Get(c.suit), [c]);
  }

  /** Taking the last card off a non-empty pile removes exactly that card. */
  lemma BagPop(s: seq<Card>)
    requires |s| > 0
    ensures Bag(s) == Bag(s[..|s| - 1]) + Bag([s[|s| - 1]])
  {
    assert s == s[..|s| - 1] + [s[|s| - 1]];
    BagAppend(s[..|s| - 1], [s[|s| - 1]]);
  }

  lemma WasteToFoundationConserves(env: Env, g: Game, c: Card)
    requires IsLegal(g, WasteToFoundation(c))
    ensures GameBag(ApplyMove(env, g, WasteToFoundation(c))) == GameBag(g)
  {
    BagPop(g.waste);
    FoundationsBagPush(g.foundations, c);
  }

  lemma WasteToBoardConserves(env: Env, g: Game, column: nat, c: Card)
    requires IsLegal(g, WasteToBoard(column, c))
    ensures GameBag(ApplyMove(env, g, WasteToBoard(column, c))) == GameBag(g)
  {
    BagPop(g.waste);
    AppendBag(g.board, column, [c.(revealed := true)]);
    BagIgnoresFaces([c.(revealed := true)], [c]);
  }

  lemma BoardToFoundationConserves(env: Env, g: Game, src: nat, c: Card, s: nat)
    requires IsLegal(g, BoardToFoundation(src, c, s))
    ensures GameBag(ApplyMove(env, g, BoardToFoundation(src, c, s))) == GameBag(g)
  {
    var col := g.board[src];
    var b1 := g.board[src := col[..s]];
    BoardToFoundationShape(env, g, src, c, s);
    CutBag(g.board, src, s);
    assert col[s..] == [c];
    RevealBag(b1, src);
    assert b1[src := RevealTop(b1[src])] == g.board[src := RevealTop(col[..s])];
    FoundationsBagPush(g.foundations, c);
  }

  /** A legal `Board_to_foundation` pops the column's last card onto the foundations. */
  lemma BoardToFoundationShape(env: Env, g: Game, src: nat, c: Card, s: nat)
    requires IsLegal(g, BoardToFoundation(src, c, s))
    ensures src < |g.board| && s == |g.board[src]| - 1 && g.board[src][s] == c
    ensures ApplyMove(env, g, BoardToFoundation(src, c, s)) ==
      g.(foundations := FoundationAdd(g.foundations, c), board := g.board[src := RevealTop(g.board[src][..s])])
  {
  }

  /** Cutting `col[s..]` from column `src` takes exactly the run's cards out of the tableau. */
  lemma CutBag(board: seq<seq<Card>>, src: nat, s: nat)
    requires src < |board| && s <= |board[src]|
    ensures BoardBag(board[src := board[src][..s]]) + Bag(board[src][s..]) == BoardBag(board)
  {
    var col := board[src];
    var rest := BoardBag(board[src := col[..s]]);
    BagSplit(col, s);
    BoardBagUpdate(board, src, col[..s]);
    assert rest + Bag(col[s..]) + Bag(col[..s]) == BoardBag(board) + Bag(col[..s]);
    BagCancel(rest + Bag(col[s..]), BoardBag(board), Bag(col[..s]));
  }

  /** Appending cards to a column adds exactly those cards to the tableau. */
  lemma AppendBag(board: seq<seq<Card>>, dst: nat, extra: seq<Card>)
    requires dst < |board|
    ensures BoardBag(board[dst := board[dst] + extra]) == BoardBag(board) + Bag(extra)
  {
    var grown := BoardBag(board[dst := board[dst] + extra]);
    BoardBagUpdate(board, dst, board[dst] + extra);
    BagAppend(board[dst], extra);
    assert grown + Bag(board[dst]) == BoardBag(board) + Bag(extra) + Bag(board[dst]);
    BagCancel(grown, BoardBag(board) + Bag(extra), Bag(board[dst]));
  }

  /** Showing a column's last card keeps the tableau's cards. */
  lemma RevealBag(board: seq<seq<Card>>, i: nat)
    requires i < |board|
    ensures BoardBag(board[i := RevealTop(board[i])]) == BoardBag(board)
  {
    BoardBagUpdate(board, i, RevealTop(board[i]));
    BagRevealTop(board[i]);
    BagCancel(BoardBag(board[i := RevealTop(board[i])]), BoardBag(board), Bag(board[i]));
  }

  /** A valid run moved onto a column that accepts its head keeps the tableau's cards. */
  lemma BoardToBoardConserves(board: seq<seq<Card>>, src: nat, dst: nat, s: nat)
    requires src < |board| && dst < |board| && src != dst
    requires ValidSequence(board[src], s) && BoardAccepts(board[dst], board[src][s])
    ensures BoardBag(MoveRun(board, src, dst, s)) == BoardBag(board)
  {
    var col := board[src];
    var run := col[s..];
    ValidSequenceIsBuildRun(col, s);
    AddRunTakesBuildRun(board[dst], run);
    var b1 := board[src := col[..s]];
    assert b1[dst] == board[dst];
    var b2 := b1[dst := b1[dst] + FaceUp(run)];
    assert b2[src] == col[..s];
    var b3 := b2[src := RevealTop(b2[src])];
    assert MoveRun(board, src, dst, s) == b3;
    CutBag(board, src, s);
    AppendBag(b1, dst, FaceUp(run));
    BagFaceUp(run);
    RevealBag(b2, src);
  }
}

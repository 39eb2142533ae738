/** Move generation: `_is_valid_sequence`, `get_legal_moves` and `describe_move` of
    game_logic/best_move_tree.py. game_logic/best_move_graph.py repeats the first two
    and `describe_move` word for word, and main.py's `_is_valid_Board_sequence` is the
    same test, so each is defined once here. */
module MoveGeneration {
  import opened Wrappers
  import opened Text
  import opened Cards
  import opened Foundation
  import opened Tableau
  import opened GameState
  import opened Moves

  /** `_is_valid_sequence`: the index is inside the column, every card from it to the
      end is face-up, and each is one rank above the next with the other colour. */
  predicate ValidSequence(pile: seq<Card>, start: int) {
    0 <= start < |pile| &&
    (forall i :: start <= i < |pile| ==> pile[i].revealed) &&
    (forall i :: start <= i < |pile| - 1 ==> StepsDown(pile, i))
  }

  /** The source's two loops: first the face-up check, then the ordering check. */
  method IsValidSequence(pile: seq<Card>, start: int) returns (ok: bool)
    ensures ok == ValidSequence(pile, start)
  {
    if start < 0 || start >= |pile| {
      return false;
    }
    var i := start;
    while i < |pile|
      invariant start <= i <= |pile|
      invariant forall k :: start <= k < i ==> pile[k].revealed
    {
      if !pile[i].revealed {
        return false;
      }
      i := i + 1;
    }
    i := start;
    while i < |pile| - 1
      invariant start <= i <= |pile| - 1
      invariant forall k :: start <= k < i ==> StepsDown(pile, k)
    {
      var a := pile[i];
      var b := pile[i + 1];
      if a.rank != b.rank + 1 || IsRed(a) == IsRed(b) {
        assert !StepsDown(pile, i);
        return false;
      }
      i := i + 1;
    }
    return true;
  }

  /** The cards from a valid start index form a face-up build run. */
  lemma ValidSequenceIsBuildRun(pile: seq<Card>, start: int)
    requires ValidSequence(pile, start)
    ensures BuildRun(pile[start..])
    ensures forall k :: 0 <= k < |pile[start..]| ==> pile[start..][k].revealed
  {
    var run := pile[start..];
    forall k | 0 <= k < |run| - 1
      ensures StepsDown(run, k)
    {
      assert StepsDown(pile, start + k);
      assert run[k] == pile[start + k] && run[k + 1] == pile[start + k + 1];
    }
  }

  // ---------------------------------------------------------------------------
  // The list `get_legal_moves` builds, in its order

  function WasteToBoardUpTo(board: seq<seq<Card>>, c: Card, n: nat): seq<Move>
    requires n <= |board|
  {
    if n == 0 then []
    else WasteToBoardUpTo(board, c, n - 1) + (if BoardAccepts(board[n - 1], c) then [WasteToBoard(n - 1, c)] else [])
  }

  /** The waste moves: only ever for the waste's last card. */
  function WasteMoves(g: Game): seq<Move> {
    if |g.waste| == 0 then []
    else
      var c := g.waste[|g.waste| - 1];
      (if FoundationAccepts(c.suit, g.foundations.Get(c.suit), c) then [WasteToFoundation(c)] else [])
      + WasteToBoardUpTo(g.board, c, |g.board|)
  }

  /** The moves of the run starting at `s` in column `i` to columns `0 .. n-1`. */
  function DestsUpTo(g: Game, i: nat, s: nat, n: nat): seq<Move>
    requires i < |g.board| && s < |g.board[i]| && n <= |g.board|
  {
    if n == 0 then []
    else DestsUpTo(g, i, s, n - 1) +
         (if i == n - 1 then []
          else if BoardAccepts(g.board[n - 1], g.board[i][s]) then [BoardToBoard(i, n - 1, g.board[i][s], s)]
          else [])
  }

  /** The moves of the run starting at `s` in column `i`. */
  function StartMoves(g: Game, i: nat, s: nat): seq<Move>
    requires i < |g.board| && s < |g.board[i]|
  {
    var pile := g.board[i];
    var c := pile[s];
    if !c.revealed || !ValidSequence(pile, s) then []
    else
      (if s == |pile| - 1 && FoundationAccepts(c.suit, g.foundations.Get(c.suit), c)
       then [BoardToFoundation(i, c, s)] else [])
      + DestsUpTo(g, i, s, |g.board|)
  }

  function StartsUpTo(g: Game, i: nat, k: nat): seq<Move>
    requires i < |g.board| && k <= |g.board[i]|
  {
    if k == 0 then [] else StartsUpTo(g, i, k - 1) + StartMoves(g, i, k - 1)
  }

  /** The moves out of column `i`: none from an empty column. */
  function ColumnMoves(g: Game, i: nat): seq<Move>
    requires i < |g.board|
  {
    if |g.board[i]| == 0 then [] else StartsUpTo(g, i, |g.board[i]|)
  }

  /** The lists `parts(0)`, ..., `parts(k - 1)` one after the other: what a loop over
      `0 .. k-1` that appends `parts(j)` at step `j` builds. */
  function Concat(parts: nat -> seq<Move>, k: nat): seq<Move> {
    if k == 0 then [] else Concat(parts, k - 1) + parts(k - 1)
  }

  /** The moves out of each column. */
  function ColumnsOf(g: Game): nat -> seq<Move> {
    (i: nat) => if i < |g.board| then ColumnMoves(g, i) else []
  }

  function StockMoves(g: Game): seq<Move> {
    if |g.stock| > 0 then [DrawStock] else if |g.waste| > 0 then [ResetStock] else []
  }

  /** The list `get_legal_moves` returns. */
  function LegalMoves(g: Game): seq<Move> {
    WasteMoves(g) + Concat(ColumnsOf(g), |g.board|) + StockMoves(g)
  }

  /** `get_legal_moves`, with the source's loops; the inner loops are the methods
      below. The waste moves, the tableau moves and the stock move are collected in
      that order, as the source appends them. */
  method GetLegalMoves(g: Game) returns (moves: seq<Move>)
    ensures moves == LegalMoves(g)
  {
    var wasteMoves := WasteLoop(g);
    var columnMoves := TableauLoop(g, ColumnsOf(g));
    moves := wasteMoves + columnMoves;
    if |g.stock| > 0 {
      moves := moves + [DrawStock];
    } else if |g.waste| > 0 {
      moves := moves + [ResetStock];
    }
    assert moves == wasteMoves + columnMoves + StockMoves(g);
  }

  /** The loop over columns: the moves out of each column in turn. `parts(c)` names
      the moves of column `c`; the trigger keeps the column lists folded here. */
  method TableauLoop(g: Game, ghost parts: nat -> seq<Move>) returns (moves: seq<Move>)
    requires forall c: nat {:trigger ColumnMoves(g, c)} :: c < |g.board| ==> parts(c) == ColumnMoves(g, c)
    ensures moves == Concat(parts, |g.board|)
  {
    moves := [];
    var i := 0;
    while i < |g.board|
      invariant 0 <= i <= |g.board|
      invariant moves == Concat(parts, i)
    {
      var fromColumn := ColumnLoop(g, i, parts);
      moves := moves + fromColumn;
      i := i + 1;
    }
  }

  /** The body of the loop over columns: nothing for an empty column, else the moves
      of every start index in turn. */
  method ColumnLoop(g: Game, i: nat, ghost parts: nat -> seq<Move>) returns (moves: seq<Move>)
    requires i < |g.board|
    requires forall c: nat {:trigger ColumnMoves(g, c)} :: c < |g.board| ==> parts(c) == ColumnMoves(g, c)
    ensures moves == parts(i)
  {
    moves := [];
    if |g.board[i]| == 0 {
      assert moves == ColumnMoves(g, i);
      return;
    }
    var s := 0;
    while s < |g.board[i]|
      invariant 0 <= s <= |g.board[i]|
      invariant moves == StartsUpTo(g, i, s)
    {
      var fromStart := StartLoop(g, i, s);
      StartsUpToExtend(g, i, s);
      moves := moves + fromStart;
      s := s + 1;
    }
    assert moves == ColumnMoves(g, i);
  }

  /** The moves of the waste's last card, in the source's order. */
  method WasteLoop(g: Game) returns (moves: seq<Move>)
    ensures moves == WasteMoves(g)
  {
    moves := [];
    if |g.waste| > 0 {
      var card := g.waste[|g.waste| - 1];
      if FoundationAccepts(card.suit, g.foundations.Get(card.suit), card) {
        moves := moves + [WasteToFoundation(card)];
      }
      ghost var head := moves;
      var i := 0;
      while i < |g.board|
        invariant 0 <= i <= |g.board|
        invariant moves == head + WasteToBoardUpTo(g.board, card, i)
      {
        if BoardAccepts(g.board[i], card) {
          moves := moves + [WasteToBoard(i, card)];
        }
        i := i + 1;
      }
    }
  }

  /** The body of the loop over start indices: the moves of the run from `s`. */
  method StartLoop(g: Game, i: nat, s: nat) returns (moves: seq<Move>)
    requires i < |g.board| && s < |g.board[i]|
    ensures moves == StartMoves(g, i, s)
  {
    moves := [];
    if !g.board[i][s].revealed {
      return;
    }
    var valid := IsValidSequence(g.board[i], s);
    if !valid {
      return;
    }
    var card := g.board[i][s];
    if s == |g.board[i]| - 1 && FoundationAccepts(card.suit, g.foundations.Get(card.suit), card) {
      moves := moves + [BoardToFoundation(i, card, s)];
    }
    ghost var head := moves;
    var j := 0;
    while j < |g.board|
      invariant 0 <= j <= |g.board|
      invariant moves == head + DestsUpTo(g, i, s, j)
    {
      if i != j && BoardAccepts(g.board[j], card) {
        moves := moves + [BoardToBoard(i, j, card, s)];
      }
      j := j + 1;
    }
  }

  // ---------------------------------------------------------------------------
  // Which moves are legal, stated move by move

  /** The conditions under which `get_legal_moves` offers a move. */
  predicate IsLegal(g: Game, m: Move) {
    match m
    case DrawStock => |g.stock| > 0
    case ResetStock => |g.stock| == 0 && |g.waste| > 0
    case WasteToFoundation(c) =>
      |g.waste| > 0 && c == g.waste[|g.waste| - 1] && FoundationAccepts(c.suit, g.foundations.Get(c.suit), c)
    case WasteToBoard(column, c) =>
      |g.waste| > 0 && c == g.waste[|g.waste| - 1] && column < |g.board| && BoardAccepts(g.board[column], c)
    case BoardToFoundation(src, c, s) =>
      src < |g.board| && s == |g.board[src]| - 1 && ValidSequence(g.board[src], s) && c == g.board[src][s] &&
      FoundationAccepts(c.suit, g.foundations.Get(c.suit), c)
    case BoardToBoard(src, dst, c, s) =>
      src < |g.board| && dst < |g.board| && src != dst && ValidSequence(g.board[src], s) &&
      c == g.board[src][s] && BoardAccepts(g.board[dst], c)
  }

  predicate IsBoardMove(m: Move) {
    m.BoardToFoundation? || m.BoardToBoard?
  }

  lemma {:induction false} InWasteToBoardUpTo(board: seq<seq<Card>>, c: Card, n: nat, m: Move)
    requires n <= |board|
    ensures m in WasteToBoardUpTo(board, c, n) ==>
      m.WasteToBoard? && m.column < n && m.card == c && BoardAccepts(board[m.column], c)
    ensures m.WasteToBoard? && m.column < n && m.card == c && BoardAccepts(board[m.column], c) ==>
      m in WasteToBoardUpTo(board, c, n)
  {
    if n > 0 {
      InWasteToBoardUpTo(board, c, n - 1, m);
    }
  }

  /** One step of `DestsUpTo`: its moves are those to the earlier columns and the one
      to column `n - 1`, if offered. */
  lemma DestsUpToStep(g: Game, i: nat, s: nat, n: nat, m: Move)
    requires i < |g.board| && s < |g.board[i]| && 0 < n <= |g.board|
    ensures m in DestsUpTo(g, i, s, n) ==>
      m in DestsUpTo(g, i, s, n - 1) ||
      (i != n - 1 && BoardAccepts(g.board[n - 1], g.board[i][s]) && m == BoardToBoard(i, n - 1, g.board[i][s], s))
    ensures m in DestsUpTo(g, i, s, n - 1) ==> m in DestsUpTo(g, i, s, n)
    ensures i != n - 1 && BoardAccepts(g.board[n - 1], g.board[i][s]) && m == BoardToBoard(i, n - 1, g.board[i][s], s) ==>
      m in DestsUpTo(g, i, s, n)
  {
  }

  /** Move `m` takes the run starting at `s` in column `i` to a column before `n`
      that accepts it. */
  predicate DestBefore(g: Game, i: nat, s: nat, n: nat, m: Move)
    requires i < |g.board| && s < |g.board[i]| && n <= |g.board|
  {
    m.BoardToBoard? && m.src == i && m.startIdx == s && m.card == g.board[i][s] &&
    m.dst < n && m.dst != i && BoardAccepts(g.board[m.dst], g.board[i][s])
  }

  lemma {:induction false} DestsUpToSound(g: Game, i: nat, s: nat, n: nat, m: Move)
    requires i < |g.board| && s < |g.board[i]| && n <= |g.board|
    ensures m in DestsUpTo(g, i, s, n) ==> DestBefore(g, i, s, n, m)
  {
    if n > 0 {
      DestsUpToStep(g, i, s, n, m);
      DestsUpToSound(g, i, s, n - 1, m);
    }
  }

  lemma {:induction false} DestsUpToComplete(g: Game, i: nat, s: nat, n: nat, m: Move)
    requires i < |g.board| && s < |g.board[i]| && n <= |g.board|
    ensures DestBefore(g, i, s, n, m) ==> m in DestsUpTo(g, i, s, n)
  {
    if n > 0 {
      DestsUpToStep(g, i, s, n, m);
      DestsUpToComplete(g, i, s, n - 1, m);
    }
  }

  /** The moves of `DestsUpTo` are exactly the moves of the run to an accepting
      column other than its own, below `n`. */
  lemma InDestsUpTo(g: Game, i: nat, s: nat, n: nat, m: Move)
    requires i < |g.board| && s < |g.board[i]| && n <= |g.board|
    ensures m in DestsUpTo(g, i, s, n) <==> DestBefore(g, i, s, n, m)
  {
    DestsUpToSound(g, i, s, n, m);
    DestsUpToComplete(g, i, s, n, m);
  }

  lemma InStartMoves(g: Game, i: nat, s: nat, m: Move)
    requires i < |g.board| && s < |g.board[i]|
    ensures m in StartMoves(g, i, s) ==> IsLegal(g, m) && IsBoardMove(m) && m.src == i && m.startIdx == s
    ensures IsLegal(g, m) && IsBoardMove(m) && m.src == i && m.startIdx == s ==> m in StartMoves(g, i, s)
  {
    InDestsUpTo(g, i, s, |g.board|, m);
  }

  lemma StartsUpToExtend(g: Game, i: nat, s: nat)
    requires i < |g.board| && s < |g.board[i]|
    ensures StartsUpTo(g, i, s + 1) == StartsUpTo(g, i, s) + StartMoves(g, i, s)
  {
  }

  /** Every list of an index below `k` is part of `Concat(parts, k)`. */
  lemma {:induction false} ConcatHas(parts: nat -> seq<Move>, k: nat, j: nat, m: Move)
    requires j < k
    ensures m in parts(j) ==> m in Concat(parts, k)
  {
    if j < k - 1 {
      ConcatHas(parts, k - 1, j, m);
    }
  }

  /** `Concat(parts, k)` holds nothing but moves of the lists of the indices below `k`. */
  lemma {:induction false} ConcatFrom(parts: nat -> seq<Move>, k: nat, m: Move)
    ensures m in Concat(parts, k) ==> exists j :: 0 <= j < k && m in parts(j)
  {
    if k > 0 && m in Concat(parts, k) {
      if m in Concat(parts, k - 1) {
        ConcatFrom(parts, k - 1, m);
      } else {
        assert m in parts(k - 1);
      }
    }
  }

  lemma {:induction false} StartsUpToIsConcat(g: Game, i: nat, k: nat, parts: nat -> seq<Move>)
    requires i < |g.board| && k <= |g.board[i]|
    requires forall s :: 0 <= s < k ==> parts(s) == StartMoves(g, i, s)
    ensures StartsUpTo(g, i, k) == Concat(parts, k)
  {
    if k > 0 {
      StartsUpToIsConcat(g, i, k - 1, parts);
    }
  }

  /** Column `i` offers exactly the legal moves out of it. */
  lemma InColumnMoves(g: Game, i: nat, m: Move)
    requires i < |g.board|
    ensures m in ColumnMoves(g, i) ==> IsLegal(g, m) && IsBoardMove(m) && m.src == i
    ensures IsLegal(g, m) && IsBoardMove(m) && m.src == i ==> m in ColumnMoves(g, i)
  {
    var n := |g.board[i]|;
    if n > 0 {
      var parts := (s: nat) => if s < n then StartMoves(g, i, s) else [];
      StartsUpToIsConcat(g, i, n, parts);
      ConcatFrom(parts, n, m);
      if m in ColumnMoves(g, i) {
        var s :| 0 <= s < n && m in parts(s);
        InStartMoves(g, i, s, m);
      }
      if IsBoardMove(m) && m.src == i && m.startIdx < n {
        ConcatHas(parts, n, m.startIdx, m);
        InStartMoves(g, i, m.startIdx, m);
      }
    }
  }

  /** The tableau part of the list holds exactly the legal moves out of a column. */
  lemma BoardMovesExactly(g: Game, m: Move)
    ensures m in Concat(ColumnsOf(g), |g.board|) ==> IsLegal(g, m) && IsBoardMove(m)
    ensures IsLegal(g, m) && IsBoardMove(m) ==> m in Concat(ColumnsOf(g), |g.board|)
  {
    var n := |g.board|;
    var parts := ColumnsOf(g);
    ConcatFrom(parts, n, m);
    if m in Concat(parts, n) {
      var c :| 0 <= c < n && m in parts(c);
      InColumnMoves(g, c, m);
    }
    if IsBoardMove(m) && m.src < n {
      ConcatHas(parts, n, m.src, m);
      InColumnMoves(g, m.src, m);
    }
  }

  predicate IsWasteMove(m: Move) {
    m.WasteToFoundation? || m.WasteToBoard?
  }

  /** The waste part of the list holds exactly the legal moves of the waste's card. */
  lemma WasteMovesExactly(g: Game, m: Move)
    ensures m in WasteMoves(g) ==> IsLegal(g, m) && IsWasteMove(m)
    ensures IsLegal(g, m) && IsWasteMove(m) ==> m in WasteMoves(g)
  {
    if |g.waste| > 0 {
      InWasteToBoardUpTo(g.board, g.waste[|g.waste| - 1], |g.board|, m);
    }
  }

  lemma InAppend3(a: seq<Move>, b: seq<Move>, c: seq<Move>, m: Move)
    ensures m in a + b + c ==> m in a || m in b || m in c
    ensures m in a || m in b || m in c ==> m in a + b + c
  {
  }

  /** `get_legal_moves` offers exactly the legal moves: waste moves only for the
      waste's last card, `Board_to_foundation` only from a column's last index,
      `Board_to_Board` only between two different columns from a valid run whose head
      the destination accepts, and the stock moves under their conditions. */
  lemma LegalMovesExactly(g: Game, m: Move)
    ensures m in LegalMoves(g) ==> IsLegal(g, m)
    ensures IsLegal(g, m) ==> m in LegalMoves(g)
  {
    InAppend3(WasteMoves(g), Concat(ColumnsOf(g), |g.board|), StockMoves(g), m);
    WasteMovesExactly(g, m);
    BoardMovesExactly(g, m);
  }

  /** `draw_stock` is offered exactly when the stock has cards, `reset_stock` exactly
      when the stock is empty and the waste is not, and never both. */
  lemma StockMovesOffered(g: Game)
    ensures DrawStock in LegalMoves(g) <==> |g.stock| > 0
    ensures ResetStock in LegalMoves(g) <==> |g.stock| == 0 && |g.waste| > 0
    ensures !(DrawStock in LegalMoves(g) && ResetStock in LegalMoves(g))
  {
    LegalMovesExactly(g, DrawStock);
    LegalMovesExactly(g, ResetStock);
  }

  /** Every legal move can be applied without an exception. */
  lemma LegalIsInRange(g: Game, m: Move)
    requires IsLegal(g, m)
    ensures MoveInRange(g, m)
  {
  }

  // ---------------------------------------------------------------------------

  /** `describe_move`. Every move is one of the six kinds, so the final fallback
      `f"Move: {move}"` is never reached. */
  function DescribeMove(m: Option<Move>): (s: string)
    ensures s == "No move found" <==> m.None?
    ensures m == Some(DrawStock) ==> s == "Draw a card from the stock"
    ensures m == Some(ResetStock) ==> s == "Reset the stock"
    ensures m.Some? && m.value.BoardToBoard? ==>
      s == "Move " + CardRepr(m.value.card) + " from column " + IntToString(m.value.src) +
        " to column " + IntToString(m.value.dst)
    ensures m.Some? && m.value.BoardToFoundation? ==>
      s == "Move " + CardRepr(m.value.card) + " from column " + IntToString(m.value.src) + " to the foundation"
    ensures m.Some? && m.value.WasteToBoard? ==>
      s == "Move " + CardRepr(m.value.card) + " from waste to column " + IntToString(m.value.column)
    ensures m.Some? && m.value.WasteToFoundation? ==>
      s == "Move " + CardRepr(m.value.card) + " from waste to the foundation"
  {
    match m
    case None => "No move found"
    case Some(mv) =>
      match mv
      case BoardToBoard(src, dst, c, _) =>
        "Move " + CardRepr(c) + " from column " + IntToString(src) + " to column " + IntToString(dst)
      case BoardToFoundation(src, c, _) =>
        "Move " + CardRepr(c) + " from column " + IntToString(src) + " to the foundation"
      case WasteToBoard(column, c) =>
        "Move " + CardRepr(c) + " from waste to column " + IntToString(column)
      case WasteToFoundation(c) =>
        "Move " + CardRepr(c) + " from waste to the foundation"
      case DrawStock => "Draw a card from the stock"
      case ResetStock => "Reset the stock"
  }

  // ---------------------------------------------------------------------------
  // The description names the move

  /** A move that carries a card. */
  predicate HasCard(m: Move) {
    !m.DrawStock? && !m.ResetStock?
  }

  predicate FromColumn(m: Move) {
    m.BoardToFoundation? || m.BoardToBoard?
  }

  predicate ToColumn(m: Move) {
    m.WasteToBoard? || m.BoardToBoard?
  }

  function DestColumn(m: Move): nat
    requires ToColumn(m)
  {
    if m.WasteToBoard? then m.column else m.dst
  }

  /** The part of a card move's description that names where the card comes from. */
  function Origin(m: Move): string
    requires HasCard(m)
  {
    if FromColumn(m) then " from column " + IntToString(m.src) else " from waste"
  }

  /** The part that names where it goes. */
  function Destination(m: Move): string
    requires HasCard(m)
  {
    if ToColumn(m) then " to column " + IntToString(DestColumn(m)) else " to the foundation"
  }

  /** Regrouping the pieces of a description. */
  lemma Regroup(p: string, r: string, q: string, x: string, t: string, y: string)
    ensures p + r + q + x + t + y == p + (r + ((q + x) + (t + y)))
    ensures p + r + q + x + t == p + (r + ((q + x) + t))
  {
  }

  /** Regrouping a description whose origin and destination share one literal. */
  lemma RegroupShared(p: string, r: string, o: string, d: string, x: string)
    ensures p + r + (o + d) + x == p + (r + (o + (d + x)))
    ensures p + r + (o + d) == p + (r + (o + d))
  {
  }

  /** The description of a card move, regrouped into card, origin and destination. */
  predicate Regrouped(m: Move)
    requires HasCard(m)
  {
    DescribeMove(Some(m)) == "Move " + (CardRepr(m.card) + (Origin(m) + Destination(m)))
  }

  lemma RegroupedBoardToBoard(m: Move)
    requires m.BoardToBoard?
    ensures Regrouped(m)
  {
    Regroup("Move ", CardRepr(m.card), " from column ", IntToString(m.src), " to column ", IntToString(m.dst));
  }

  lemma RegroupedBoardToFoundation(m: Move)
    requires m.BoardToFoundation?
    ensures Regrouped(m)
  {
    Regroup("Move ", CardRepr(m.card), " from column ", IntToString(m.src), " to the foundation", "");
  }

  lemma RegroupedWasteToBoard(m: Move)
    requires m.WasteToBoard?
    ensures Regrouped(m)
  {
    assert " from waste to column " == " from waste" + " to column ";
    RegroupShared("Move ", CardRepr(m.card), " from waste", " to column ", IntToString(m.column));
  }

  lemma RegroupedWasteToFoundation(m: Move)
    requires m.WasteToFoundation?
    ensures Regrouped(m)
  {
    assert " from waste to the foundation" == " from waste" + " to the foundation";
    RegroupShared("Move ", CardRepr(m.card), " from waste", " to the foundation", "");
  }

  lemma DescribeCardMove(m: Move)
    requires HasCard(m)
    ensures DescribeMove(Some(m)) == "Move " + (CardRepr(m.card) + (Origin(m) + Destination(m)))
  {
    if m.BoardToBoard? {
      RegroupedBoardToBoard(m);
    } else if m.BoardToFoundation? {
      RegroupedBoardToFoundation(m);
    } else if m.WasteToBoard? {
      RegroupedWasteToBoard(m);
    } else {
      RegroupedWasteToFoundation(m);
    }
  }

  /** The character after " from " tells a column from the waste. */
  lemma OriginMark(m: Move)
    requires HasCard(m)
    ensures (Origin(m) + Destination(m))[6] == if FromColumn(m) then 'c' else 'w'
  {
  }

  /** The character after " to " tells a column from the foundation. */
  lemma DestinationMark(m: Move)
    requires HasCard(m)
    ensures |Destination(m)| > 4 && Destination(m)[4] == if ToColumn(m) then 'c' else 't'
    ensures Destination(m)[0] == ' '
    ensures ToColumn(m) ==> Destination(m)[11..] == IntToString(DestColumn(m))
  {
  }

  /** Dropping a known prefix. */
  lemma DropPrefix(q: string, x: string, d: string)
    ensures (q + x + d)[|q|..] == x + d
    ensures (q + d)[|q|..] == d
  {
  }

  /** What follows the origin. */
  lemma AfterOrigin(m: Move)
    requires HasCard(m)
    ensures FromColumn(m) ==> (Origin(m) + Destination(m))[13..] == IntToString(m.src) + Destination(m)
    ensures !FromColumn(m) ==> (Origin(m) + Destination(m))[11..] == Destination(m)
  {
    if FromColumn(m) {
      DropPrefix(" from column ", IntToString(m.src), Destination(m));
    } else {
      DropPrefix(" from waste", "", Destination(m));
    }
  }

  /** The origin and destination can be read back from the text that follows them. */
  lemma TailDetermines(a: Move, b: Move)
    requires HasCard(a) && HasCard(b)
    requires Origin(a) + Destination(a) == Origin(b) + Destination(b)
    ensures FromColumn(a) == FromColumn(b) && ToColumn(a) == ToColumn(b)
    ensures FromColumn(a) ==> a.src == b.src
    ensures ToColumn(a) ==> DestColumn(a) == DestColumn(b)
  {
    OriginMark(a);
    OriginMark(b);
    AfterOrigin(a);
    AfterOrigin(b);
    DestinationMark(a);
    DestinationMark(b);
    if FromColumn(a) {
      NatStringDigits(a.src);
      NatStringDigits(b.src);
      SplitAtStop(IntToString(a.src), Destination(a), IntToString(b.src), Destination(b), IsDigit);
      NatStringInjective(a.src, b.src);
    }
    if ToColumn(a) {
      NatStringInjective(DestColumn(a), DestColumn(b));
    }
  }

  /** Two moves are described alike when they are of the same kind, name the same
      columns and carry cards of the same rank and suit. */
  predicate SameDescription(a: Move, b: Move) {
    match a
    case DrawStock => b.DrawStock?
    case ResetStock => b.ResetStock?
    case WasteToFoundation(c) => b.WasteToFoundation? && SameFace(c, b.card)
    case WasteToBoard(column, c) => b.WasteToBoard? && b.column == column && SameFace(c, b.card)
    case BoardToFoundation(src, c, _) => b.BoardToFoundation? && b.src == src && SameFace(c, b.card)
    case BoardToBoard(src, dst, c, _) =>
      b.BoardToBoard? && b.src == src && b.dst == dst && SameFace(c, b.card)
  }

  predicate SameFace(c: Card, d: Card) {
    c.rank == d.rank && c.suit == d.suit
  }

  /** The card of a card move is a real card. */
  predicate RealCard(m: Move) {
    HasCard(m) ==> 1 <= m.card.rank <= 13
  }

  /** `describe_move` tells moves apart: two moves of real cards get the same text
      exactly when they are of the same kind, name the same columns and move cards of
      the same rank and suit. */
  lemma DescribeMoveInjective(a: Move, b: Move)
    requires RealCard(a) && RealCard(b)
    ensures DescribeMove(Some(a)) == DescribeMove(Some(b)) <==> SameDescription(a, b)
  {
    if DescribeMove(Some(a)) == DescribeMove(Some(b)) {
      KindMark(a);
      KindMark(b);
      if HasCard(a) {
        AfterMove(a);
        AfterMove(b);
        ReprPrefix(a.card, Origin(a) + Destination(a), b.card, Origin(b) + Destination(b));
        TailDetermines(a, b);
      }
    } else if SameDescription(a, b) {
      SameFaceAlike(a, b);
    }
  }

  /** The first character tells the stock moves from the card moves. */
  lemma KindMark(m: Move)
    ensures |DescribeMove(Some(m))| > 0
    ensures DescribeMove(Some(m))[0] == if m.DrawStock? then 'D' else if m.ResetStock? then 'R' else 'M'
  {
  }

  /** What follows "Move ". */
  lemma AfterMove(m: Move)
    requires HasCard(m)
    ensures DescribeMove(Some(m))[5..] == CardRepr(m.card) + (Origin(m) + Destination(m))
  {
    DescribeCardMove(m);
    DropPrefix("Move ", "", CardRepr(m.card) + (Origin(m) + Destination(m)));
  }

  /** Moves described alike get the same text. */
  lemma SameFaceAlike(a: Move, b: Move)
    requires SameDescription(a, b)
    ensures DescribeMove(Some(a)) == DescribeMove(Some(b))
  {
    if HasCard(a) {
      assert CardRepr(a.card) == CardRepr(b.card);
    }
  }
}

/** `apply_move` of game_logic/move_utils.py. The source deep-copies the game before
    changing anything, so the operation is a function from a position and a move to a
    new position; the argument is never changed. */
module Moves {
  import opened Cards
  import opened Foundation
  import opened Tableau
  import opened GameState

  /** What `apply_move` needs to run without an exception: a card on the waste for the
      waste moves, and column numbers that exist. */
  predicate MoveInRange(g: Game, m: Move) {
    match m
    case DrawStock => true
    case ResetStock => true
    case WasteToFoundation(_) => |g.waste| > 0
    case WasteToBoard(column, _) => |g.waste| > 0 && column < |g.board|
    case BoardToFoundation(src, _, _) => src < |g.board|
    case BoardToBoard(src, dst, _, _) => src < |g.board| && dst < |g.board|
  }

  /** Draw the stock's last card and put it face-up on the waste; nothing happens on an
      empty stock. Returns the new (stock, waste). */
  function DrawToWaste(stock: seq<Card>, waste: seq<Card>): (r: (seq<Card>, seq<Card>))
    ensures |stock| == 0 ==> r == (stock, waste)
    ensures |stock| > 0 ==> r.0 + [stock[|stock| - 1]] == stock &&
                            r.1 == waste + [stock[|stock| - 1].(revealed := true)]
  {
    if |stock| == 0 then (stock, waste)
    else (stock[..|stock| - 1], waste + [stock[|stock| - 1].(revealed := true)])
  }

  /** `foundations[card.suit].add(card)`: the pile of the card's own suit takes the card
      when it accepts it; otherwise the dictionary is unchanged. */
  function FoundationAdd(f: Foundations, c: Card): (r: Foundations)
    ensures FoundationAccepts(c.suit, f.Get(c.suit), c) ==> r.Get(c.suit) == f.Get(c.suit) + [c]
    ensures !FoundationAccepts(c.suit, f.Get(c.suit), c) ==> r == f
    ensures forall s :: s != c.suit ==> r.Get(s) == f.Get(s)
  {
    if FoundationAccepts(c.suit, f.Get(c.suit), c) then f.With(c.suit, f.Get(c.suit) + [c]) else f
  }

  /** The cards of a run, all turned face-up. */
  function FaceUp(run: seq<Card>): (r: seq<Card>)
    ensures |r| == |run|
    ensures forall k :: 0 <= k < |run| ==> r[k] == run[k].(revealed := true)
  {
    seq(|run|, k requires 0 <= k < |run| => run[k].(revealed := true))
  }

  /** The loop `for c in sequence: c.revealed = True; dst.add(c)`: each card in turn is
      offered to the column; a refused card is dropped. */
  function AddRun(pile: seq<Card>, run: seq<Card>): seq<Card>
    decreases |run|
  {
    if |run| == 0 then pile
    else BoardAdd(AddRun(pile, run[..|run| - 1]), run[|run| - 1].(revealed := true))
  }

  /** The tableau after `Board_to_Board`: `cards[start_idx:]` is cut from the source
      (Python slicing: nothing is cut when the index is past the end), offered card by
      card to the destination, and the source's new last card is turned face-up. */
  function MoveRun(board: seq<seq<Card>>, src: nat, dst: nat, start: nat): seq<seq<Card>>
    requires src < |board| && dst < |board|
  {
    var col := board[src];
    var cut := if start <= |col| then start else |col|;
    var b1 := board[src := col[..cut]];
    var b2 := b1[dst := AddRun(b1[dst], col[cut..])];
    b2[src := RevealTop(b2[src])]
  }

  /** `apply_move` (game_logic/move_utils.py). `card` and a missing `start_idx` play no
      part: every generated move carries `start_idx`. */
  function ApplyMove(env: Env, g: Game, m: Move): (r: Game)
    requires MoveInRange(g, m)
    // a move changes only the piles it names
    ensures |r.board| == |g.board|
    ensures m.DrawStock? || m.ResetStock? ==> r.board == g.board && r.foundations == g.foundations
    ensures !m.DrawStock? && !m.ResetStock? ==> r.stock == g.stock
    ensures m.WasteToFoundation? || m.WasteToBoard? ==> r.waste == g.waste[..|g.waste| - 1]
    ensures m.BoardToFoundation? || m.BoardToBoard? ==> r.waste == g.waste
    ensures m.WasteToFoundation? ==> r.board == g.board
    ensures m.WasteToBoard? || m.BoardToBoard? ==> r.foundations == g.foundations
    ensures m.WasteToBoard? ==> forall i :: 0 <= i < |g.board| && i != m.column ==> r.board[i] == g.board[i]
    ensures m.BoardToFoundation? ==> forall i :: 0 <= i < |g.board| && i != m.src ==> r.board[i] == g.board[i]
    ensures m.BoardToBoard? ==>
      forall i :: 0 <= i < |g.board| && i != m.src && i != m.dst ==> r.board[i] == g.board[i]
  {
    match m
    case DrawStock =>
      var sw := DrawToWaste(g.stock, g.waste);
      g.(stock := sw.0, waste := sw.1)
    case ResetStock =>
      var sw := env.recycle(g.stock, g.waste);
      g.(stock := sw.0, waste := sw.1)
    case WasteToFoundation(_) =>
      var c := g.waste[|g.waste| - 1];
      g.(waste := g.waste[..|g.waste| - 1], foundations := FoundationAdd(g.foundations, c))
    case WasteToBoard(column, _) =>
      var c := g.waste[|g.waste| - 1];
      g.(waste := g.waste[..|g.waste| - 1], board := g.board[column := BoardAdd(g.board[column], c)])
    case BoardToFoundation(src, _, startIdx) =>
      var col := g.board[src];
      if startIdx == |col| - 1 then
        var c := col[|col| - 1];
        g.(foundations := FoundationAdd(g.foundations, c),
           board := g.board[src := RevealTop(col[..|col| - 1])])
      else g
    case BoardToBoard(src, dst, _, startIdx) =>
      g.(board := MoveRun(g.board, src, dst, startIdx))
  }

  // ---------------------------------------------------------------------------
  // Build runs

  /** The card at `k` is one rank above the card after it and of the other colour. */
  predicate StepsDown(run: seq<Card>, k: int) {
    0 <= k && k + 1 < |run| && run[k].rank == run[k + 1].rank + 1 && IsRed(run[k]) != IsRed(run[k + 1])
  }

  /** Each card one rank above the next and of the other colour. */
  predicate BuildRun(run: seq<Card>) {
    forall k :: 0 <= k < |run| - 1 ==> StepsDown(run, k)
  }

  /** A build run whose head the destination accepts is taken whole: every card lands,
      face-up, in order, and none is dropped. */
  lemma {:induction false} AddRunTakesBuildRun(pile: seq<Card>, run: seq<Card>)
    requires |run| > 0 && BuildRun(run) && BoardAccepts(pile, run[0])
    ensures AddRun(pile, run) == pile + FaceUp(run)
    decreases |run|
  {
    var n := |run|;
    if n == 1 {
      assert FaceUp(run) == [run[0].(revealed := true)];
    } else {
      var front := run[..n - 1];
      forall k | 0 <= k < |front| - 1
        ensures StepsDown(front, k)
      {
        assert StepsDown(run, k);
      }
      assert front[0] == run[0];
      AddRunTakesBuildRun(pile, front);
      assert StepsDown(run, n - 2);
      var p := pile + FaceUp(front);
      assert p[|p| - 1] == run[n - 2].(revealed := true);
      AcceptsOnFaceUpTop(p, run[n - 1].(revealed := true));
      assert BoardAccepts(p, run[n - 1].(revealed := true));
      assert FaceUp(run) == FaceUp(front) + [run[n - 1].(revealed := true)];
    }
  }

  // ---------------------------------------------------------------------------
  // What each move does

  /** `draw_stock` moves the stock's last card face-up onto the waste and changes
      nothing else; on an empty stock it changes nothing at all. */
  lemma DrawStockEffect(env: Env, g: Game)
    ensures |g.stock| == 0 ==> ApplyMove(env, g, DrawStock) == g
    ensures |g.stock| > 0 ==>
      var r := ApplyMove(env, g, DrawStock);
      var top := g.stock[|g.stock| - 1];
      r.stock + [top] == g.stock && r.waste == g.waste + [top.(revealed := true)] &&
      r.foundations == g.foundations && r.board == g.board
  {
  }

  /** `Board_to_foundation` changes nothing unless `start_idx` is the column's last index. */
  lemma BoardToFoundationNoOp(env: Env, g: Game, src: nat, c: Card, startIdx: nat)
    requires src < |g.board| && startIdx != |g.board[src]| - 1
    ensures ApplyMove(env, g, BoardToFoundation(src, c, startIdx)) == g
  {
  }

  /** From the last index, `Board_to_foundation` pops the last card and offers it to its
      suit's foundation, then shows the column's new last card; stock, waste and the
      other columns are untouched. */
  lemma BoardToFoundationEffect(env: Env, g: Game, src: nat, c: Card)
    requires src < |g.board| && |g.board[src]| > 0
    ensures
      var col := g.board[src];
      var top := col[|col| - 1];
      var r := ApplyMove(env, g, BoardToFoundation(src, c, |col| - 1));
      r.stock == g.stock && r.waste == g.waste &&
      |r.board| == |g.board| && r.board[src] == RevealTop(col[..|col| - 1]) &&
      (forall i :: 0 <= i < |g.board| && i != src ==> r.board[i] == g.board[i]) &&
      (FoundationAccepts(top.suit, g.foundations.Get(top.suit), top) ==>
         r.foundations.Get(top.suit) == g.foundations.Get(top.suit) + [top]) &&
      (forall s :: s != top.suit ==> r.foundations.Get(s) == g.foundations.Get(s))
  {
  }

  /** `Board_to_Board` between two different columns, from an index inside the source:
      the source keeps the cards below `start_idx` with its new last card face-up, the
      destination receives the run card by card, and nothing else changes. When the run
      is a build run whose head the destination accepts, the destination is exactly
      its old cards followed by the run, face-up. */
  lemma BoardToBoardEffect(env: Env, g: Game, src: nat, dst: nat, c: Card, start: nat)
    requires src < |g.board| && dst < |g.board| && src != dst && start < |g.board[src]|
    ensures
      var col := g.board[src];
      var r := ApplyMove(env, g, BoardToBoard(src, dst, c, start));
      r.stock == g.stock && r.waste == g.waste && r.foundations == g.foundations &&
      |r.board| == |g.board| &&
      r.board[src] == RevealTop(col[..start]) &&
      r.board[dst] == AddRun(g.board[dst], col[start..]) &&
      (forall i :: 0 <= i < |g.board| && i != src && i != dst ==> r.board[i] == g.board[i]) &&
      (BuildRun(col[start..]) && BoardAccepts(g.board[dst], col[start]) ==>
         r.board[dst] == g.board[dst] + FaceUp(col[start..]))
  {
    var col := g.board[src];
    if BuildRun(col[start..]) && BoardAccepts(g.board[dst], col[start]) {
      AddRunTakesBuildRun(g.board[dst], col[start..]);
    }
  }
}

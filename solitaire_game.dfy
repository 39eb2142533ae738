/** main.py's `SolitaireGame`, which holds the live game, and the two module-level
    functions that change it: `apply_move` (a move given by name) and `attempt_move` (the
    player's drop). Each pile is held as a sequence field; the piles' own methods are the
    functions of the Foundation, Tableau and Stock modules. */
module Solitaire {
  import opened Wrappers
  import opened PyList
  import opened Cards
  import opened Foundation
  import opened Tableau
  import opened GameState
  import opened Moves
  import opened MoveGeneration
  import opened Deal
  import opened MoveNames
  import opened PlayerMoves

  class SolitaireGame {
    var stock: seq<Card>
    var waste: seq<Card>
    var foundations: Foundations
    var board: seq<seq<Card>>

    /** The piles as one position. */
    function State(): Game
      reads this
    {
      Game(stock, waste, foundations, board)
    }

    /** `__init__`: empty piles, seven empty columns, then `deal_cards`. The deck
        `create_deck` shuffles is the parameter. */
    constructor (shuffled: seq<Card>)
      requires IsShuffledDeck(shuffled)
      ensures State() == Opening(shuffled)
    {
      stock := [];
      waste := [];
      foundations := EmptyFoundations;
      board := seq(BOARD_COLUMNS, _ => []);
      new;
      OpeningShape(shuffled);
      DealCards(shuffled);
      assert forall i :: 0 <= i < BOARD_COLUMNS ==> board[i] == DealtBoard(shuffled, BOARD_COLUMNS)[i];
      assert board == DealtBoard(shuffled, BOARD_COLUMNS);
    }

    /** `deal_cards`: column i receives the deck's next i + 1 cards, face-up only at the
        last, and the remaining cards are added face-down to the stock. */
    method DealCards(deck: seq<Card>)
      modifies this
      requires |board| == BOARD_COLUMNS && Dealt(BOARD_COLUMNS) <= |deck|
      ensures |board| == BOARD_COLUMNS
      ensures forall i :: 0 <= i < BOARD_COLUMNS ==> board[i] == old(board[i]) + DealtBoard(deck, BOARD_COLUMNS)[i]
      ensures stock == old(stock) + FaceDown(deck[Dealt(BOARD_COLUMNS)..])
      ensures waste == old(waste) && foundations == old(foundations)
    {
      var deckIndex := 0;
      for i := 0 to BOARD_COLUMNS
        invariant deckIndex == Dealt(i) && |board| == BOARD_COLUMNS
        invariant forall c :: 0 <= c < i ==> board[c] == old(board[c]) + DealtBoard(deck, BOARD_COLUMNS)[c]
        invariant forall c :: i <= c < BOARD_COLUMNS ==> board[c] == old(board[c])
        invariant stock == old(stock) && waste == old(waste) && foundations == old(foundations)
      {
        DealtMonotone(i + 1, BOARD_COLUMNS);
        DealColumn(deck, i);
        deckIndex := deckIndex + i + 1;
      }
      for k := deckIndex to |deck|
        invariant |board| == BOARD_COLUMNS
        invariant forall c :: 0 <= c < BOARD_COLUMNS ==> board[c] == old(board[c]) + DealtBoard(deck, BOARD_COLUMNS)[c]
        invariant stock == old(stock) + FaceDown(deck[deckIndex..k])
        invariant waste == old(waste) && foundations == old(foundations)
      {
        assert FaceDown(deck[deckIndex..k + 1]) == FaceDown(deck[deckIndex..k]) + [deck[k].(revealed := false)];
        stock := stock + [deck[k].(revealed := false)];
      }
    }

    /** The inner loop of `deal_cards` for column `i`. */
    method DealColumn(deck: seq<Card>, i: nat)
      modifies this
      requires i < |board| && Dealt(i + 1) <= |deck|
      ensures board == old(board)[i := old(board[i]) + DealtColumn(deck, i)]
      ensures stock == old(stock) && waste == old(waste) && foundations == old(foundations)
    {
      for j := 0 to i + 1
        invariant |board| == |old(board)|
        invariant board[i] == old(board[i]) + DealtColumn(deck, i)[..j]
        invariant forall c :: 0 <= c < |board| && c != i ==> board[c] == old(board[c])
        invariant stock == old(stock) && waste == old(waste) && foundations == old(foundations)
      {
        var card := deck[Dealt(i) + j].(revealed := j == i);
        assert DealtColumn(deck, i)[..j + 1] == DealtColumn(deck, i)[..j] + [card];
        board := board[i := board[i] + [card]];
      }
      assert DealtColumn(deck, i)[..i + 1] == DealtColumn(deck, i);
      assert board == old(board)[i := old(board[i]) + DealtColumn(deck, i)];
    }
  }

  /** `apply_move` on a move name, with the "tX->tY" destination read as intended. */
  method ApplyNamedMove(game: SolitaireGame, name: string)
    modifies game
    requires !Decode(name).Raises?
    requires Decode(name).Run? ==> CanPerform(game.State(), Decode(name).command)
    ensures Decode(name).Run? ==> game.State() == Perform(old(game.State()), Decode(name).command)
    ensures Decode(name).Ignored? ==> game.State() == old(game.State())
  {
    var decoded := Decode(name);
    if decoded.Ignored? {
      return;
    }
    match decoded.command
    case Draw =>
      if |game.stock| > 0 {
        var drawn := game.stock[|game.stock| - 1];
        game.stock := game.stock[..|game.stock| - 1];
        game.waste := game.waste + [drawn.(revealed := true)];
      }
    case WasteUp =>
      var c := game.waste[|game.waste| - 1];
      game.waste := game.waste[..|game.waste| - 1];
      game.foundations := FoundationAdd(game.foundations, c);
    case WasteToColumn(k) =>
      var i := PyIndex(k, |game.board|);
      var c := game.waste[|game.waste| - 1];
      game.waste := game.waste[..|game.waste| - 1];
      game.board := game.board[i := BoardAdd(game.board[i], c)];
    case ColumnUp(src) =>
      var col := game.board[src];
      game.board := game.board[src := col[..|col| - 1]];
      game.foundations := FoundationAdd(game.foundations, col[|col| - 1]);
    case ColumnToColumn(src, dst) =>
      var col := game.board[src];
      game.board := game.board[src := col[..|col| - 1]];
      game.board := game.board[dst := BoardAdd(game.board[dst], col[|col| - 1])];
  }

  /** `attempt_move`: makes the drop when it is legal and reports whether it did. */
  method AttemptMove(game: SolitaireGame, sel: Selection, t: Target) returns (moved: bool)
    modifies game
    requires InReach(game.State(), sel, t)
    ensures (moved, game.State()) == Attempt(old(game.State()), sel, t)
  {
    match sel
    case FromWaste =>
      if |game.waste| == 0 {
        return false;
      }
      var card := game.waste[|game.waste| - 1];
      match t {
      case ToFoundation(slot) =>
        var suit := SUITS[slot];
        if FoundationAccepts(suit, game.foundations.Get(suit), card) {
          game.waste := game.waste[..|game.waste| - 1];
          game.foundations := game.foundations.With(suit, game.foundations.Get(suit) + [card]);
          return true;
        }
        return false;
      case ToColumn(dst) =>
        if BoardAccepts(game.board[dst], card) {
          game.waste := game.waste[..|game.waste| - 1];
          game.board := game.board[dst := game.board[dst] + [card.(revealed := true)]];
          return true;
        }
        return false;
      case Elsewhere =>
        return false;
      }
    case FromColumn(src, cardIndex) =>
      if |game.board[src]| == 0 {
        return false;
      }
      var start := StartOf(game.board[src], cardIndex);
      var valid := IsValidSequence(game.board[src], start);
      if !valid {
        return false;
      }
      var moving := game.board[src][start];
      match t {
      case ToFoundation(slot) =>
        var suit := SUITS[slot];
        if start == |game.board[src]| - 1 && FoundationAccepts(suit, game.foundations.Get(suit), moving) {
          var rest := game.board[src][..start];
          game.foundations := game.foundations.With(suit, game.foundations.Get(suit) + [moving]);
          game.board := game.board[src := RevealTop(rest)];
          return true;
        }
        return false;
      case ToColumn(dst) =>
        if src != dst && BoardAccepts(game.board[dst], moving) {
          MoveRunInPlace(game, src, dst, start);
          return true;
        }
        return false;
      case Elsewhere =>
        return false;
      }
    case FromElsewhere =>
      return false;
  }

  /** The tableau part of a column-to-column drop: `cards[start:]` is cut from the source,
      each card turned face-up and offered to the destination in turn, and the source's
      new last card turned face-up. */
  method MoveRunInPlace(game: SolitaireGame, src: nat, dst: nat, start: nat)
    modifies game
    requires src < |game.board| && dst < |game.board| && src != dst && start < |game.board[src]|
    ensures game.board == MoveRun(old(game.board), src, dst, start)
    ensures game.stock == old(game.stock) && game.waste == old(game.waste)
    ensures game.foundations == old(game.foundations)
  {
    var run := game.board[src][start..];
    game.board := game.board[src := game.board[src][..start]];
    ghost var cut := game.board;
    for k := 0 to |run|
      invariant game.board == cut[dst := AddRun(cut[dst], run[..k])]
      invariant game.stock == old(game.stock) && game.waste == old(game.waste)
      invariant game.foundations == old(game.foundations)
    {
      assert run[..k + 1][..k] == run[..k];
      var c := run[k].(revealed := true);
      game.board := game.board[dst := BoardAdd(game.board[dst], c)];
    }
    assert run[..|run|] == run;
    game.board := game.board[src := RevealTop(game.board[src])];
  }
}

/** The player's drag-and-drop move of main.py (`attempt_move`): a selected source (the
    waste, or a column from a chosen card down) dropped on a target (a foundation slot or
    a column). The move is made only when it is legal; otherwise nothing changes. */
module PlayerMoves {
  import opened Wrappers
  import opened Cards
  import opened Foundation
  import opened Tableau
  import opened GameState
  import opened Moves
  import opened MoveGeneration
  import opened Conservation
  import opened Deal

  /** The `selected` dictionary: its "type", the column "index", and the "card_index"
      the player clicked, which may be missing (the column's last card is then meant). */
  datatype Selection =
    | FromWaste
    | FromColumn(index: nat, cardIndex: Option<int>)
    | FromElsewhere

  /** The `target` pair from `hit_test`: a foundation slot (in the order H, D, C, S), a
      column, or any other area (stock, waste, nothing). */
  datatype Target =
    | ToFoundation(slot: nat)
    | ToColumn(column: nat)
    | Elsewhere

  /** The indices `attempt_move` looks up exist, as they do for anything `hit_test`
      returns. */
  predicate InReach(g: Game, sel: Selection, t: Target) {
    (sel.FromColumn? ==> sel.index < |g.board|) &&
    (t.ToFoundation? ==> t.slot < |SUITS|) &&
    (t.ToColumn? ==> t.column < |g.board|)
  }

  /** The card index a column selection starts from. */
  function StartOf(pile: seq<Card>, cardIndex: Option<int>): int {
    if cardIndex.Some? then cardIndex.value else |pile| - 1
  }

  /** `attempt_move`: whether a move was made, and the position after it. */
  function Attempt(g: Game, sel: Selection, t: Target): (r: (bool, Game))
    requires InReach(g, sel, t)
    ensures !r.0 ==> r.1 == g
  {
    match sel
    case FromWaste =>
      if |g.waste| == 0 then (false, g)
      else
        var card := g.waste[|g.waste| - 1];
        var rest := g.waste[..|g.waste| - 1];
        (match t
         case ToFoundation(slot) =>
           var suit := SUITS[slot];
           if FoundationAccepts(suit, g.foundations.Get(suit), card) then
             (true, g.(waste := rest, foundations := g.foundations.With(suit, g.foundations.Get(suit) + [card])))
           else (false, g)
         case ToColumn(dst) =>
           if BoardAccepts(g.board[dst], card) then
             (true, g.(waste := rest, board := g.board[dst := g.board[dst] + [card.(revealed := true)]]))
           else (false, g)
         case Elsewhere => (false, g))
    case FromColumn(src, cardIndex) =>
      var pile := g.board[src];
      var start := StartOf(pile, cardIndex);
      if |pile| == 0 || !ValidSequence(pile, start) then (false, g)
      else
        var moving := pile[start];
        (match t
         case ToFoundation(slot) =>
           var suit := SUITS[slot];
           if start == |pile| - 1 && FoundationAccepts(suit, g.foundations.Get(suit), moving) then
             (true, g.(foundations := g.foundations.With(suit, g.foundations.Get(suit) + [moving]),
                       board := g.board[src := RevealTop(pile[..start])]))
           else (false, g)
         case ToColumn(dst) =>
           if src != dst && BoardAccepts(g.board[dst], moving) then
             (true, g.(board := MoveRun(g.board, src, dst, start)))
           else (false, g)
         case Elsewhere => (false, g))
    case FromElsewhere => (false, g)
  }

  /** The advisor's move that a successful drop performs. */
  function AsMove(g: Game, sel: Selection, t: Target): Move
    requires InReach(g, sel, t) && Attempt(g, sel, t).0
  {
    match sel
    case FromWaste =>
      var card := g.waste[|g.waste| - 1];
      if t.ToFoundation? then WasteToFoundation(card) else WasteToBoard(t.column, card)
    case FromColumn(src, cardIndex) =>
      var start := StartOf(g.board[src], cardIndex);
      var card := g.board[src][start];
      if t.ToFoundation? then BoardToFoundation(src, card, start) else BoardToBoard(src, t.column, card, start)
  }

  /** The drop that performs a waste or tableau move of the advisor. */
  function SelectionOf(m: Move): Selection
    requires !IsStockMove(m)
  {
    match m
    case WasteToFoundation(_) => FromWaste
    case WasteToBoard(_, _) => FromWaste
    case BoardToFoundation(src, _, s) => FromColumn(src, Some(s))
    case BoardToBoard(src, _, _, s) => FromColumn(src, Some(s))
  }

  function TargetOf(m: Move): Target
    requires !IsStockMove(m)
  {
    match m
    case WasteToFoundation(c) => ToFoundation(SuitIndex(c.suit))
    case WasteToBoard(column, _) => ToColumn(column)
    case BoardToFoundation(_, c, _) => ToFoundation(SuitIndex(c.suit))
    case BoardToBoard(_, dst, _, _) => ToColumn(dst)
  }

  // ---------------------------------------------------------------------------
  // What a drop does

  /** Every successful drop is one of the advisor's legal moves, and it leaves the
      position that move leaves. */
  lemma AttemptIsLegalMove(env: Env, g: Game, sel: Selection, t: Target)
    requires InReach(g, sel, t) && Attempt(g, sel, t).0
    ensures IsLegal(g, AsMove(g, sel, t)) && MoveInRange(g, AsMove(g, sel, t))
    ensures ApplyMove(env, g, AsMove(g, sel, t)) == Attempt(g, sel, t).1
  {
    var m := AsMove(g, sel, t);
    match sel
    case FromWaste =>
      var card := g.waste[|g.waste| - 1];
      if t.ToFoundation? {
        assert card.suit == SUITS[t.slot];
      }
    case FromColumn(src, cardIndex) =>
      var pile := g.board[src];
      var start := StartOf(pile, cardIndex);
      if t.ToFoundation? {
        assert pile[start].suit == SUITS[t.slot];
        assert start == |pile| - 1;
      } else {
        assert 0 <= start < |pile|;
      }
  }

  /** Conversely, every waste or tableau move the advisor calls legal can be made by a
      drop, with the same effect. */
  lemma LegalMoveIsAttempt(env: Env, g: Game, m: Move)
    requires IsLegal(g, m) && !IsStockMove(m)
    ensures InReach(g, SelectionOf(m), TargetOf(m))
    ensures MoveInRange(g, m)
    ensures Attempt(g, SelectionOf(m), TargetOf(m)) == (true, ApplyMove(env, g, m))
  {
    match m
    case WasteToFoundation(c) =>
    case WasteToBoard(column, c) =>
    case BoardToFoundation(src, c, s) =>
      assert SUITS[SuitIndex(c.suit)] == c.suit;
    case BoardToBoard(src, dst, c, s) =>
  }

  /** A drop never creates, loses or duplicates a card. */
  lemma AttemptConservesCards(g: Game, sel: Selection, t: Target)
    requires InReach(g, sel, t)
    ensures GameBag(Attempt(g, sel, t).1) == GameBag(g)
  {
    if Attempt(g, sel, t).0 {
      var env := Env(Points(0.0, 0.0, 0.0), (s, w) => (s, w));
      AttemptIsLegalMove(env, g, sel, t);
      var m := AsMove(g, sel, t);
      LegalMovesExactly(g, m);
      LegalMoveConservesCards(env, g, m);
    }
  }

  /** A column card reaches a foundation only when it is the column's last card and the
      foundation of the slot's suit takes it; the column's new last card is then
      face-up. */
  lemma ColumnToFoundationDrop(g: Game, src: nat, cardIndex: Option<int>, slot: nat)
    requires InReach(g, FromColumn(src, cardIndex), ToFoundation(slot))
    ensures Attempt(g, FromColumn(src, cardIndex), ToFoundation(slot)).0 <==>
      (|g.board[src]| > 0 && StartOf(g.board[src], cardIndex) == |g.board[src]| - 1 &&
       g.board[src][|g.board[src]| - 1].revealed &&
       FoundationAccepts(SUITS[slot], g.foundations.Get(SUITS[slot]), g.board[src][|g.board[src]| - 1]))
    ensures Attempt(g, FromColumn(src, cardIndex), ToFoundation(slot)).0 ==>
      var after := Attempt(g, FromColumn(src, cardIndex), ToFoundation(slot)).1.board[src];
      |after| == |g.board[src]| - 1 && (|after| > 0 ==> after[|after| - 1].revealed)
  {
  }

  /** A run moves between columns only when it is a face-up build sequence, the two
      columns differ and the destination takes the run's first card; afterwards the
      source's new last card is face-up. */
  lemma ColumnToColumnDrop(g: Game, src: nat, cardIndex: Option<int>, dst: nat)
    requires InReach(g, FromColumn(src, cardIndex), ToColumn(dst))
    ensures Attempt(g, FromColumn(src, cardIndex), ToColumn(dst)).0 <==>
      (|g.board[src]| > 0 && ValidSequence(g.board[src], StartOf(g.board[src], cardIndex)) && src != dst &&
       BoardAccepts(g.board[dst], g.board[src][StartOf(g.board[src], cardIndex)]))
    ensures Attempt(g, FromColumn(src, cardIndex), ToColumn(dst)).0 ==>
      var after := Attempt(g, FromColumn(src, cardIndex), ToColumn(dst)).1.board[src];
      after == RevealTop(g.board[src][..StartOf(g.board[src], cardIndex)]) &&
      (|after| > 0 ==> after[|after| - 1].revealed)
  {
  }

  /** The waste's top card goes to a foundation or column exactly when that pile takes it. */
  lemma WasteDrop(g: Game, t: Target)
    requires InReach(g, FromWaste, t)
    ensures Attempt(g, FromWaste, t).0 <==>
      |g.waste| > 0 &&
      match t
      case ToFoundation(slot) =>
        FoundationAccepts(SUITS[slot], g.foundations.Get(SUITS[slot]), g.waste[|g.waste| - 1])
      case ToColumn(dst) => BoardAccepts(g.board[dst], g.waste[|g.waste| - 1])
      case Elsewhere => false
    ensures Attempt(g, FromWaste, t).0 ==> Attempt(g, FromWaste, t).1.waste == g.waste[..|g.waste| - 1]
  {
  }
}

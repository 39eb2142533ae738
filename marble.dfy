/** `MarbleGame.create_board` of the peg prototype's game.py: a size × size grid of 1s
    (a marble), the centre cell 0 (the hole), and the four corner blocks outside the
    middle band 2 (off the board). */
module Marble {
  const MARBLE: int := 1
  const HOLE: int := 0
  const OFF_BOARD: int := 2

  /** `row` or `col` lies outside the middle band: in the first or the last size // 3. */
  predicate OutsideBand(size: nat, x: nat) {
    x < size / 3 || x >= size - size / 3
  }

  predicate InCorner(size: nat, row: nat, col: nat) {
    OutsideBand(size, row) && OutsideBand(size, col)
  }

  /** The grid before the corner loop: marbles everywhere but the centre. */
  function Initial(size: nat, row: nat, col: nat): int {
    if row == size / 2 && col == size / 2 then HOLE else MARBLE
  }

  /** A cell of the finished grid: the corner loop overwrites whatever was there. */
  function CellValue(size: nat, row: nat, col: nat): int {
    if InCorner(size, row, col) then OFF_BOARD else Initial(size, row, col)
  }

  /** `create_board`: `np.full`, the centre set to 0, then every corner cell set to 2.
      numpy raises for a size that is not positive (an empty grid has no centre). */
  method CreateBoard(size: nat) returns (board: array2<int>)
    requires size > 0
    ensures fresh(board) && board.Length0 == size && board.Length1 == size
    ensures forall r, c :: 0 <= r < size && 0 <= c < size ==> board[r, c] == CellValue(size, r, c)
  {
    board := new int[size, size]((r, c) => MARBLE);
    board[size / 2, size / 2] := HOLE;
    for row := 0 to size
      invariant forall r, c :: 0 <= r < size && 0 <= c < size ==>
        board[r, c] == if r < row then CellValue(size, r, c) else Initial(size, r, c)
    {
      for col := 0 to size
        invariant forall r, c :: 0 <= r < size && 0 <= c < size ==>
          board[r, c] == if r < row || (r == row && c < col) then CellValue(size, r, c) else Initial(size, r, c)
      {
        if InCorner(size, row, col) {
          board[row, col] := OFF_BOARD;
        }
      }
    }
  }

  /** The hole survives the corner loop: the centre lies inside the middle band. */
  lemma CentreIsHole(size: nat)
    requires size > 0
    ensures !OutsideBand(size, size / 2)
    ensures CellValue(size, size / 2, size / 2) == HOLE
  {
  }

  /** Exactly one cell is the hole, and every cell is a marble, the hole or off the board
      according to where it lies. */
  lemma CellKinds(size: nat, row: nat, col: nat)
    requires row < size && col < size
    ensures CellValue(size, row, col) == HOLE <==> row == size / 2 && col == size / 2
    ensures CellValue(size, row, col) == OFF_BOARD <==> InCorner(size, row, col)
    ensures CellValue(size, row, col) == MARBLE <==>
      !InCorner(size, row, col) && !(row == size / 2 && col == size / 2)
  {
    CentreIsHole(size);
  }

  /** The corner blocks are symmetric under mirroring either axis and under swapping row
      and column. */
  lemma CornersSymmetric(size: nat, row: nat, col: nat)
    requires row < size && col < size
    ensures InCorner(size, row, col) <==> InCorner(size, size - 1 - row, col)
    ensures InCorner(size, row, col) <==> InCorner(size, row, size - 1 - col)
    ensures InCorner(size, row, col) <==> InCorner(size, col, row)
  {
  }

  /** With an odd size the whole grid is mirror-symmetric; with an even size the hole
      sits one cell below and right of the middle, so mirroring moves it. */
  lemma OddBoardSymmetric(size: nat, row: nat, col: nat)
    requires size % 2 == 1 && row < size && col < size
    ensures CellValue(size, row, col) == CellValue(size, size - 1 - row, col)
    ensures CellValue(size, row, col) == CellValue(size, row, size - 1 - col)
  {
    CornersSymmetric(size, row, col);
  }

  lemma EvenBoardAsymmetric(size: nat)
    requires size > 0 && size % 2 == 0
    ensures CellValue(size, size / 2, size / 2) == HOLE
    ensures CellValue(size, size / 2 - 1, size / 2) == MARBLE
  {
    CentreIsHole(size);
  }
}

/** The named moves of main.py's `apply_move`: a move arrives as a string ("draw",
    "w->f", "w->tX", "tX->f", "tX->tY"), is decoded with Python's `int`, and changes the
    game's piles. Decoding and the change are modelled separately: `Decode` turns a name
    into a command, and `Perform` gives the position after the command. */
module MoveNames {
  import opened Wrappers
  import opened PyList
  import opened Cards
  import opened Text
  import opened Tableau
  import opened GameState
  import opened Moves

  /** The commands a name can stand for. Column numbers read with `int(name[1])` are a
      single digit, so they are never negative; `int(name[4:])` can be. */
  datatype Command =
    | Draw
    | WasteUp
    | WasteToColumn(column: int)
    | ColumnUp(src: nat)
    | ColumnToColumn(src: nat, dst: nat)

  /** What `apply_move` makes of a name: a command to run, a name that matches no branch
      (the function returns without doing anything), or one whose decoding raises
      (`int` of a non-number, or an index past the end of the name). */
  datatype Decoded = Run(command: Command) | Ignored | Raises

  predicate StartsWith(s: string, prefix: string) {
    |prefix| <= |s| && s[..|prefix|] == prefix
  }

  /** Python's `pattern in s` for strings. */
  predicate Contains(s: string, pattern: string)
    decreases |s|
  {
    |pattern| <= |s| && (s[..|pattern|] == pattern || (|s| > 0 && Contains(s[1..], pattern)))
  }

  /** `int(name[at])`: the one character at `at`, if it is there, read as a number. */
  function DigitAt(name: string, at: nat): (r: Option<nat>)
    ensures r.Some? ==> at < |name| && IsDigit(name[at]) && r.value == DigitValue(name[at])
    ensures at < |name| && IsDigit(name[at]) ==> r.Some?
  {
    if at < |name| && IsDigit(name[at]) then Some(DigitValue(name[at])) else None
  }

  /** The branches of `apply_move` in order, with the destination column of "tX->tY"
      read from the single character at `dstAt`. */
  function DecodeAt(name: string, dstAt: nat): Decoded {
    if name == "draw" then Run(Draw)
    else if name == "w->f" then Run(WasteUp)
    else if StartsWith(name, "w->t") then
      match ParseInt(name[4..])
      case Some(k) => Run(WasteToColumn(k))
      case None => Raises
    else if Contains(name, "->f") then
      match DigitAt(name, 1)
      case Some(src) => Run(ColumnUp(src))
      case None => Raises
    else if Contains(name, "->t") then
      match (DigitAt(name, 1), DigitAt(name, dstAt))
      case (Some(src), Some(dst)) => Run(ColumnToColumn(src, dst))
      case _ => Raises
    else Ignored
  }

  /** `apply_move` as written: the destination of "tX->tY" is `int(name[4])`. */
  function DecodeAsWritten(name: string): Decoded {
    DecodeAt(name, 4)
  }

  /** The decoding the comment above `apply_move` describes: the destination of
      "tX->tY" is the digit after the second 't', `int(name[5])`. */
  function Decode(name: string): Decoded {
    DecodeAt(name, 5)
  }

  /** The names the comment above `apply_move` documents. */
  predicate Nameable(c: Command) {
    match c
    case ColumnUp(src) => src < 10
    case ColumnToColumn(src, dst) => src < 10 && dst < 10
    case _ => true
  }

  function Name(c: Command): string
    requires Nameable(c)
  {
    match c
    case Draw => "draw"
    case WasteUp => "w->f"
    case WasteToColumn(k) => "w->t" + IntToString(k)
    case ColumnUp(src) => "t" + [DigitChar(src)] + "->f"
    case ColumnToColumn(src, dst) => "t" + [DigitChar(src)] + "->t" + [DigitChar(dst)]
  }

  /** Where "->f" and "->t" occur in the two column names. */
  lemma ColumnNameFacts(x: nat, y: nat)
    requires x < 10 && y < 10
    ensures !Contains("t" + [DigitChar(x)] + "->t" + [DigitChar(y)], "->f")
    ensures Contains("t" + [DigitChar(x)] + "->t" + [DigitChar(y)], "->t")
    ensures Contains("t" + [DigitChar(x)] + "->f", "->f")
  {
    var s := "t" + [DigitChar(x)] + "->t" + [DigitChar(y)];
    var s1, s2, s3, s4 := s[1..], s[2..], s[3..], s[4..];
    assert s1 == s[1..] && s2 == s1[1..] && s3 == s2[1..] && s4 == s3[1..];
    assert |s4| == 2;
    assert s3[0] == '>' && s2[2] == 't' && s1[0] == DigitChar(x) && s[0] == 't';
    assert !Contains(s4, "->f");
    assert s3[..3] != "->f";
    assert !Contains(s3, "->f");
    assert s2[..3] != "->f";
    assert s2[..3] == "->t";
    assert !Contains(s2, "->f");
    assert s1[..3] != "->f";
    assert s[..3] != "->f";
    var u := "t" + [DigitChar(x)] + "->f";
    assert u[1..][1..] == "->f";
  }

  /** Finding: with `int(name[4])` every documented "tX->tY" name raises, because the
      character at index 4 is the letter 't'. */
  lemma ColumnToColumnNameRaises(x: nat, y: nat)
    requires x < 10 && y < 10
    ensures DecodeAsWritten(Name(ColumnToColumn(x, y))) == Raises
  {
    var s := Name(ColumnToColumn(x, y));
    ColumnNameFacts(x, y);
    assert s[0] == 't' && s[4] == 't';
  }

  /** The corrected decoding reads back every documented name. */
  lemma DecodeName(c: Command)
    requires Nameable(c)
    ensures Decode(Name(c)) == Run(c)
  {
    match c
    case Draw =>
    case WasteUp =>
    case WasteToColumn(k) => DecodeWasteName(k);
    case ColumnUp(src) => DecodeColumnUpName(src);
    case ColumnToColumn(src, dst) => DecodeColumnToColumnName(src, dst);
  }

  lemma DecodeWasteName(k: int)
    ensures Decode(Name(WasteToColumn(k))) == Run(WasteToColumn(k))
  {
    var s := Name(WasteToColumn(k));
    IntRoundTrip(k);
    assert s[..4] == "w->t" && s[4..] == IntToString(k);
    assert s != "draw" && s != "w->f" by {
      assert s[0] == 'w' && |s| > 4;
    }
  }

  lemma DecodeColumnUpName(src: nat)
    requires src < 10
    ensures Decode(Name(ColumnUp(src))) == Run(ColumnUp(src))
  {
    var s := Name(ColumnUp(src));
    ColumnNameFacts(src, 0);
    assert s[0] == 't' && s[1] == DigitChar(src);
    assert !StartsWith(s, "w->t");
  }

  lemma DecodeColumnToColumnName(src: nat, dst: nat)
    requires src < 10 && dst < 10
    ensures Decode(Name(ColumnToColumn(src, dst))) == Run(ColumnToColumn(src, dst))
  {
    var s := Name(ColumnToColumn(src, dst));
    ColumnNameFacts(src, dst);
    assert s[0] == 't' && s[1] == DigitChar(src) && s[5] == DigitChar(dst);
    assert !StartsWith(s, "w->t");
  }

  /** Apart from "tX->tY", the code as written decodes the documented names as intended. */
  lemma DecodeAsWrittenAgrees(c: Command)
    requires Nameable(c) && !c.ColumnToColumn?
    ensures DecodeAsWritten(Name(c)) == Decode(Name(c)) == Run(c)
  {
    DecodeName(c);
  }

  // ---------------------------------------------------------------------------
  // Running a command

  /** What a command needs to run without an exception: a card to pop (`pop` of an empty
      pile gives None, whose `.suit` raises) and column numbers that exist. */
  predicate CanPerform(g: Game, c: Command) {
    match c
    case Draw => true
    case WasteUp => |g.waste| > 0
    case WasteToColumn(k) => |g.waste| > 0 && -(|g.board| as int) <= k < |g.board|
    case ColumnUp(src) => src < |g.board| && |g.board[src]| > 0
    case ColumnToColumn(src, dst) => src < |g.board| && |g.board[src]| > 0 && dst < |g.board|
  }

  /** The position after a command. A card popped and then refused by the foundation or
      column it is offered to is lost: `add` returns False and nothing puts it back. */
  function Perform(g: Game, c: Command): Game
    requires CanPerform(g, c)
  {
    match c
    case Draw =>
      var sw := DrawToWaste(g.stock, g.waste);
      g.(stock := sw.0, waste := sw.1)
    case WasteUp =>
      var top := g.waste[|g.waste| - 1];
      g.(waste := g.waste[..|g.waste| - 1], foundations := FoundationAdd(g.foundations, top))
    case WasteToColumn(k) =>
      var top := g.waste[|g.waste| - 1];
      var i := PyIndex(k, |g.board|);
      g.(waste := g.waste[..|g.waste| - 1], board := g.board[i := BoardAdd(g.board[i], top)])
    case ColumnUp(src) =>
      var col := g.board[src];
      g.(board := g.board[src := col[..|col| - 1]], foundations := FoundationAdd(g.foundations, col[|col| - 1]))
    case ColumnToColumn(src, dst) =>
      var col := g.board[src];
      var popped := g.board[src := col[..|col| - 1]];
      g.(board := popped[dst := BoardAdd(popped[dst], col[|col| - 1])])
  }

  /** "draw" moves the stock's last card face-up onto the waste and does nothing on an
      empty stock, exactly as the advisor's draw move does. */
  lemma PerformDraw(env: Env, g: Game)
    ensures Perform(g, Draw) == ApplyMove(env, g, DrawStock)
    ensures |g.stock| == 0 ==> Perform(g, Draw) == g
    ensures |g.stock| > 0 ==>
      Perform(g, Draw).stock == g.stock[..|g.stock| - 1] &&
      Perform(g, Draw).waste == g.waste + [g.stock[|g.stock| - 1].(revealed := true)] &&
      Perform(g, Draw).board == g.board && Perform(g, Draw).foundations == g.foundations
  {
  }

  /** Unlike the advisor's move of a column's last card to its foundation, "tX->f" does
      not turn over the card it uncovers. */
  lemma ColumnUpLeavesNewTop(g: Game, src: nat)
    requires CanPerform(g, ColumnUp(src))
    requires |g.board[src]| > 1
    ensures Perform(g, ColumnUp(src)).board[src] == g.board[src][..|g.board[src]| - 1]
  {
  }

  /** "tX->tY" moves one card, not a run, and drops it when the destination refuses it:
      the source column is one card shorter whatever happens. */
  lemma ColumnToColumnMovesOneCard(g: Game, src: nat, dst: nat)
    requires CanPerform(g, ColumnToColumn(src, dst)) && src != dst
    ensures Perform(g, ColumnToColumn(src, dst)).board[src] == g.board[src][..|g.board[src]| - 1]
    ensures BoardAccepts(g.board[dst], g.board[src][|g.board[src]| - 1]) ==>
      Perform(g, ColumnToColumn(src, dst)).board[dst] ==
        g.board[dst] + [g.board[src][|g.board[src]| - 1].(revealed := true)]
    ensures !BoardAccepts(g.board[dst], g.board[src][|g.board[src]| - 1]) ==>
      Perform(g, ColumnToColumn(src, dst)).board[dst] == g.board[dst]
  {
  }
}

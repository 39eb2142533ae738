/** `score_state` of game_logic/move_utils.py: the additive heuristic both searches
    maximise. Python floats are modelled as exact reals. */
module Scoring {
  import opened Cards
  import opened GameState

  /** A score or the `-float("inf")` sentinel the searches start from. */
  datatype ExtReal = NegInf | Fin(r: real)
  {
    /** `self > other`: nothing is above a finite score except a larger one, and
        negative infinity is above nothing. */
    predicate Above(other: ExtReal) {
      match (this, other)
      case (Fin(a), Fin(b)) => a > b
      case (Fin(_), NegInf) => true
      case (NegInf, _) => false
    }

    /** `self + x` for a finite `x`: negative infinity absorbs it. */
    function Plus(x: real): (e: ExtReal)
      ensures e.NegInf? <==> this.NegInf?
      ensures this.Fin? ==> e.r == this.r + x
    {
      match this
      case NegInf => NegInf
      case Fin(a) => Fin(a + x)
    }
  }

  /** `>` is transitive across the scores: a score not above `b` is below any score
      above `b`. */
  lemma AboveAfterNotAbove(a: ExtReal, b: ExtReal, c: ExtReal)
    requires !a.Above(b) && c.Above(b)
    ensures !a.Above(c) && a != c
  {
  }

  /** Per suit: three times the foundation points per card plus twice the square of the
      pile size. */
  function FoundationPoints(pts: Points, n: nat): real {
    pts.foundationCard * (n as real) * 3.0 + (n as real) * (n as real) * 2.0
  }

  /** Foundation points of the first `k` suits in the order H, D, C, S. */
  function FoundationPointsUpTo(pts: Points, f: Foundations, k: nat): real
    requires k <= 4
  {
    if k == 0 then 0.0 else FoundationPointsUpTo(pts, f, k - 1) + FoundationPoints(pts, |f.Get(SUITS[k - 1])|)
  }

  function FoundationCountUpTo(f: Foundations, k: nat): nat
    requires k <= 4
  {
    if k == 0 then 0 else FoundationCountUpTo(f, k - 1) + |f.Get(SUITS[k - 1])|
  }

  /** The staged bonus: one tier of 500, 200 or 100 once more than 40, 30 or 20 cards
      are on the foundations. */
  function ThresholdBonus(total: nat): real {
    if total > 40 then 500.0 else if total > 30 then 200.0 else if total > 20 then 100.0 else 0.0
  }

  /** Face-up cards among the first `n` cards of a column. */
  function RevealedIn(pile: seq<Card>, n: nat): nat
    requires n <= |pile|
  {
    if n == 0 then 0 else RevealedIn(pile, n - 1) + (if pile[n - 1].revealed then 1 else 0)
  }

  /** Face-up cards in the first `n` columns. */
  function RevealedUpTo(b: seq<seq<Card>>, n: nat): nat
    requires n <= |b|
  {
    if n == 0 then 0 else RevealedUpTo(b, n - 1) + RevealedIn(b[n - 1], |b[n - 1]|)
  }

  /** Empty columns among the first `n`. */
  function EmptyUpTo(b: seq<seq<Card>>, n: nat): nat
    requires n <= |b|
  {
    if n == 0 then 0 else EmptyUpTo(b, n - 1) + (if |b[n - 1]| == 0 then 1 else 0)
  }

  /** Some column among the first `n` has a King at index 0 and more than one card. */
  predicate KingToMoveUpTo(b: seq<seq<Card>>, n: nat)
    requires n <= |b|
  {
    exists i :: 0 <= i < n && |b[i]| > 1 && b[i][0].rank == 13
  }

  function EmptyPilePoints(pts: Points, b: seq<seq<Card>>): real {
    var e := EmptyUpTo(b, |b|) as real;
    if KingToMoveUpTo(b, |b|) then pts.emptyPile * e * 3.0 else pts.emptyPile * e
  }

  /** The whole heuristic, term by term as the source adds them. */
  function Score(pts: Points, g: Game): real {
    var revealed := RevealedUpTo(g.board, |g.board|) as real;
    FoundationPoints4(pts, g.foundations)
    + ThresholdBonus(FoundationCountUpTo(g.foundations, 4))
    + revealed * (pts.revealedCard * 0.5)
    + EmptyPilePoints(pts, g.board)
    + revealed * 0.3
    - (|g.stock| as real) * 0.5
    - (|g.waste| as real) * 1.0
  }

  function FoundationPoints4(pts: Points, f: Foundations): real {
    FoundationPointsUpTo(pts, f, 4)
  }

  /** `score_state`, with the source's loops; each loop is one of the methods below. */
  method ScoreState(pts: Points, g: Game) returns (score: real)
    ensures score == Score(pts, g)
  {
    var foundationScore, total := FoundationLoop(pts, g.foundations);
    score := foundationScore;
    if total > 40 {
      score := score + 500.0;
    } else if total > 30 {
      score := score + 200.0;
    } else if total > 20 {
      score := score + 100.0;
    }
    var revealedScore := RevealedLoop(pts, g.board);
    score := score + revealedScore;
    var emptyScore := EmptyPileLoop(pts, g.board);
    score := score + emptyScore;
    var runScore := RunLoop(g.board);
    score := score + runScore;
    score := score - (|g.stock| as real) * 0.5;
    score := score - (|g.waste| as real) * 1.0;
  }

  /** The loop over the suits H, D, C, S: foundation points and the card total. */
  method FoundationLoop(pts: Points, f: Foundations) returns (score: real, total: nat)
    ensures score == FoundationPoints4(pts, f)
    ensures total == FoundationCountUpTo(f, 4)
  {
    score := 0.0;
    total := 0;
    var s := 0;
    while s < 4
      invariant 0 <= s <= 4
      invariant total == FoundationCountUpTo(f, s)
      invariant score == FoundationPointsUpTo(pts, f, s)
    {
      var size := |f.Get(SUITS[s])|;
      total := total + size;
      score := score + pts.foundationCard * (size as real) * 3.0;
      score := score + (size as real) * (size as real) * 2.0;
      s := s + 1;
    }
  }

  /** The loop giving half the revealed-card points per face-up tableau card. */
  method RevealedLoop(pts: Points, board: seq<seq<Card>>) returns (score: real)
    ensures score == (RevealedUpTo(board, |board|) as real) * (pts.revealedCard * 0.5)
  {
    score := 0.0;
    var i := 0;
    ghost var count: nat := 0;
    ghost var unit := pts.revealedCard * 0.5;
    while i < |board|
      invariant 0 <= i <= |board|
      invariant count == RevealedUpTo(board, i)
      invariant score == Times(count, unit)
    {
      var pile := board[i];
      var j := 0;
      while j < |pile|
        invariant 0 <= j <= |pile|
        invariant count == RevealedUpTo(board, i) + RevealedIn(pile, j)
        invariant score == Times(count, unit)
      {
        if pile[j].revealed {
          score := score + pts.revealedCard * 0.5;
          count := count + 1;
        }
        j := j + 1;
      }
      i := i + 1;
    }
    TimesIsProduct(count, unit);
  }

  /** The loop counting empty columns and looking for a King that could move. */
  method EmptyPileLoop(pts: Points, board: seq<seq<Card>>) returns (score: real)
    ensures score == EmptyPilePoints(pts, board)
  {
    var emptyCount: nat := 0;
    var hasKingToMove := false;
    var i := 0;
    while i < |board|
      invariant 0 <= i <= |board|
      invariant emptyCount == EmptyUpTo(board, i)
      invariant hasKingToMove == KingToMoveUpTo(board, i)
    {
      if |board[i]| == 0 {
        emptyCount := emptyCount + 1;
      } else if |board[i]| > 0 && board[i][0].rank == 13 && |board[i]| > 1 {
        hasKingToMove := true;
      }
      i := i + 1;
    }
    if hasKingToMove {
      score := pts.emptyPile * (emptyCount as real) * 3.0;
    } else {
      score := pts.emptyPile * (emptyCount as real);
    }
  }

  /** The loop adding 0.3 per face-up card of each column. */
  method RunLoop(board: seq<seq<Card>>) returns (score: real)
    ensures score == (RevealedUpTo(board, |board|) as real) * 0.3
  {
    score := 0.0;
    var i := 0;
    ghost var count: nat := 0;
    while i < |board|
      invariant 0 <= i <= |board|
      invariant count == RevealedUpTo(board, i)
      invariant score == (count as real) * 0.3
    {
      var pile := board[i];
      var sequenceLength: nat := 0;
      var j := 0;
      while j < |pile|
        invariant 0 <= j <= |pile|
        invariant sequenceLength == RevealedIn(pile, j)
      {
        if pile[j].revealed {
          sequenceLength := sequenceLength + 1;
        }
        j := j + 1;
      }
      score := score + (sequenceLength as real) * 0.3;
      count := count + sequenceLength;
      i := i + 1;
    }
  }

  /** `n` copies of `x` added one at a time, as the source's loop does. */
  ghost function Times(n: nat, x: real): real {
    if n == 0 then 0.0 else Times(n - 1, x) + x
  }

  lemma {:induction false} TimesIsProduct(n: nat, x: real)
    ensures Times(n, x) == (n as real) * x
  {
    if n > 0 {
      TimesIsProduct(n - 1, x);
      assert (n as real) * x == ((n - 1) as real) * x + x;
    }
  }

  // ---------------------------------------------------------------------------
  // Properties

  lemma {:induction false} FoundationCountWith(f: Foundations, s: Suit, p: seq<Card>, k: nat)
    requires k <= 4
    ensures FoundationCountUpTo(f.With(s, p), k) ==
            if SuitIndex(s) < k then FoundationCountUpTo(f, k) - |f.Get(s)| + |p| else FoundationCountUpTo(f, k)
  {
    if k > 0 {
      FoundationCountWith(f, s, p, k - 1);
      if SuitIndex(s) < k - 1 {
        FoundationCountHas(f, s, k - 1);
      }
    }
  }

  lemma {:induction false} FoundationCountHas(f: Foundations, s: Suit, k: nat)
    requires SuitIndex(s) < k <= 4
    ensures FoundationCountUpTo(f, k) >= |f.Get(s)|
  {
    if SuitIndex(s) < k - 1 {
      FoundationCountHas(f, s, k - 1);
    }
  }

  lemma {:induction false} FoundationPointsWith(pts: Points, f: Foundations, s: Suit, p: seq<Card>, k: nat)
    requires k <= 4
    ensures FoundationPointsUpTo(pts, f.With(s, p), k) ==
            if SuitIndex(s) < k then
              FoundationPointsUpTo(pts, f, k) - FoundationPoints(pts, |f.Get(s)|) + FoundationPoints(pts, |p|)
            else FoundationPointsUpTo(pts, f, k)
  {
    if k > 0 {
      FoundationPointsWith(pts, f, s, p, k - 1);
    }
  }

  lemma FoundationPointsGrow(pts: Points, n: nat)
    requires pts.foundationCard >= 0.0
    ensures FoundationPoints(pts, n + 1) > FoundationPoints(pts, n)
  {
    var x := n as real;
    assert (x + 1.0) * (x + 1.0) == x * x + 2.0 * x + 1.0;
    assert pts.foundationCard * (x + 1.0) * 3.0 == pts.foundationCard * x * 3.0 + pts.foundationCard * 3.0;
  }

  /** With non-negative foundation points, one more card on any foundation, all else
      equal, strictly raises the score. */
  lemma OneMoreFoundationCardScoresHigher(pts: Points, g: Game, s: Suit, c: Card)
    requires pts.foundationCard >= 0.0
    ensures Score(pts, g.(foundations := g.foundations.With(s, g.foundations.Get(s) + [c]))) > Score(pts, g)
  {
    var f := g.foundations;
    var p := f.Get(s) + [c];
    FoundationCountWith(f, s, p, 4);
    FoundationPointsWith(pts, f, s, p, 4);
    FoundationPointsGrow(pts, |f.Get(s)|);
    var t := FoundationCountUpTo(f, 4);
    var g2 := g.(foundations := f.With(s, p));
    assert FoundationCountUpTo(g2.foundations, 4) == t + 1;
    assert ThresholdBonus(t + 1) >= ThresholdBonus(t);
    assert FoundationPoints4(pts, g2.foundations) > FoundationPoints4(pts, f);
    assert Score(pts, g2) - Score(pts, g) ==
      FoundationPoints4(pts, g2.foundations) - FoundationPoints4(pts, f)
      + ThresholdBonus(t + 1) - ThresholdBonus(t);
  }
}

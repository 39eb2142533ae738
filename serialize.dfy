/** `serialize_state` of game_logic/move_utils.py: the canonical key used for the
    visited sets of both searches. */
module Serialize {
  import opened Cards
  import opened GameState

  /** (rank, suit, revealed) as the source writes a tableau card. */
  type Triple = (int, char, bool)
  /** (rank, suit) as the source writes a stock, waste or foundation card. */
  type Pair = (int, char)

  datatype StateKey = StateKey(board: seq<seq<Triple>>, foundations: seq<seq<Pair>>, stock: seq<Pair>, waste: seq<Pair>)

  function SerColumn(pile: seq<Card>): (r: seq<Triple>)
    ensures |r| == |pile|
  {
    seq(|pile|, k requires 0 <= k < |pile| => (pile[k].rank, SuitLetter(pile[k].suit), pile[k].revealed))
  }

  function SerPairs(pile: seq<Card>): (r: seq<Pair>)
    ensures |r| == |pile|
  {
    seq(|pile|, k requires 0 <= k < |pile| => (pile[k].rank, SuitLetter(pile[k].suit)))
  }

  function SerBoard(b: seq<seq<Card>>): (r: seq<seq<Triple>>)
    ensures |r| == |b|
  {
    seq(|b|, k requires 0 <= k < |b| => SerColumn(b[k]))
  }

  /** The sort key of a serialized column: its last tuple, or (0, 'X', False) when empty. */
  function SortKey(col: seq<Triple>): Triple {
    if col == [] then (0, 'X', false) else col[|col| - 1]
  }

  /** Python's ordering of (int, str, bool) tuples: lexicographic, with False before True. */
  predicate TripleLe(a: Triple, b: Triple) {
    a.0 < b.0 || (a.0 == b.0 && (a.1 < b.1 || (a.1 == b.1 && (!a.2 || b.2))))
  }

  predicate ColLe(x: seq<Triple>, y: seq<Triple>) {
    TripleLe(SortKey(x), SortKey(y))
  }

  predicate Sorted(s: seq<seq<Triple>>) {
    forall i, j :: 0 <= i < j < |s| ==> ColLe(s[i], s[j])
  }

  /** Places `x` before the first column whose key is not smaller, so that `x`, which came
      first in the input, stays ahead of columns with an equal key (a stable sort). */
  function Insert(x: seq<Triple>, t: seq<seq<Triple>>): (r: seq<seq<Triple>>)
    decreases |t|
  {
    if t == [] || ColLe(x, t[0]) then [x] + t else [t[0]] + Insert(x, t[1..])
  }

  /** `sorted(board_ser, key=...)`: a stable sort of the columns by `SortKey`. */
  function SortColumns(s: seq<seq<Triple>>): (r: seq<seq<Triple>>)
    decreases |s|
  {
    if s == [] then [] else Insert(s[0], SortColumns(s[1..]))
  }

  /** The canonical key: sorted tableau columns, then the foundations in H, D, C, S
      order, then stock and waste, the last three without the face-up flag. */
  function SerializeState(g: Game): (k: StateKey)
    ensures |k.foundations| == 4
    ensures forall i :: 0 <= i < 4 ==> k.foundations[i] == SerPairs(g.foundations.Get(SUITS[i]))
    ensures k.stock == SerPairs(g.stock) && k.waste == SerPairs(g.waste)
    ensures k.board == SortColumns(SerBoard(g.board))
  {
    StateKey(
      SortColumns(SerBoard(g.board)),
      [SerPairs(g.foundations.hearts), SerPairs(g.foundations.diamonds),
       SerPairs(g.foundations.clubs), SerPairs(g.foundations.spades)],
      SerPairs(g.stock),
      SerPairs(g.waste))
  }

  // ---------------------------------------------------------------------------
  // The ordering on keys is a total order

  lemma TripleLeTotalOrder()
    ensures forall a: Triple :: TripleLe(a, a)
    ensures forall a: Triple, b: Triple :: TripleLe(a, b) || TripleLe(b, a)
    ensures forall a: Triple, b: Triple :: TripleLe(a, b) && TripleLe(b, a) ==> a == b
    ensures forall a: Triple, b: Triple, c: Triple :: TripleLe(a, b) && TripleLe(b, c) ==> TripleLe(a, c)
  {
  }

  // ---------------------------------------------------------------------------
  // The sort produces a sorted permutation of its input

  lemma {:induction false} InsertSorted(x: seq<Triple>, t: seq<seq<Triple>>)
    requires Sorted(t)
    ensures Sorted(Insert(x, t))
    ensures multiset(Insert(x, t)) == multiset(t) + multiset{x}
    decreases |t|
  {
    TripleLeTotalOrder();
    if t == [] || ColLe(x, t[0]) {
      assert Insert(x, t) == [x] + t;
      forall j | 0 < j < |t| + 1 ensures ColLe(x, ([x] + t)[j]) {
        assert ([x] + t)[j] == t[j - 1];
        assert ColLe(t[0], t[j - 1]);
      }
    } else {
      var rest := Insert(x, t[1..]);
      assert Sorted(t[1..]);
      InsertSorted(x, t[1..]);
      assert t == [t[0]] + t[1..];
      assert multiset(t) == multiset{t[0]} + multiset(t[1..]);
      var r := [t[0]] + rest;
      forall j | 0 < j < |r| ensures ColLe(t[0], r[j]) {
        assert r[j] == rest[j - 1];
        assert r[j] in multiset(rest);
        if r[j] != x {
          assert r[j] in multiset(t[1..]);
          var k :| 0 <= k < |t[1..]| && t[1..][k] == r[j];
          assert t[k + 1] == r[j];
        }
      }
    }
  }

  /** The tableau part of the key is sorted by the columns' last cards and holds the same
      serialized columns as the tableau. */
  lemma {:induction false} SortColumnsCorrect(s: seq<seq<Triple>>)
    ensures Sorted(SortColumns(s))
    ensures multiset(SortColumns(s)) == multiset(s)
    decreases |s|
  {
    if s != [] {
      SortColumnsCorrect(s[1..]);
      InsertSorted(s[0], SortColumns(s[1..]));
      assert s == [s[0]] + s[1..];
    }
  }

  /** Columns with equal sort keys are equal: then the stable order is unique. */
  ghost predicate KeyInjective(m: multiset<seq<Triple>>) {
    forall x, y :: x in m && y in m && SortKey(x) == SortKey(y) ==> x == y
  }

  /** The first column of a sorted sequence is no larger than any column in it. */
  lemma SortedHeadFirst(s: seq<seq<Triple>>, x: seq<Triple>)
    requires Sorted(s) && x in multiset(s)
    ensures |s| > 0 && ColLe(s[0], x)
  {
    var i :| 0 <= i < |s| && s[i] == x;
    if i > 0 {
      assert ColLe(s[0], s[i]);
    }
  }

  lemma HeadTail(s: seq<seq<Triple>>)
    requires |s| > 0
    ensures s == [s[0]] + s[1..] && multiset(s) == multiset{s[0]} + multiset(s[1..])
    ensures Sorted(s) ==> Sorted(s[1..])
  {
    assert s == [s[0]] + s[1..];
    if Sorted(s) {
      forall i, j | 0 <= i < j < |s| - 1
        ensures ColLe(s[1..][i], s[1..][j])
      {
        assert ColLe(s[i + 1], s[j + 1]);
      }
    }
  }

  /** Two sorted orders of the same columns, whose keys tell columns apart, start alike. */
  lemma HeadsEqual(s: seq<seq<Triple>>, t: seq<seq<Triple>>)
    requires Sorted(s) && Sorted(t) && multiset(s) == multiset(t) && KeyInjective(multiset(s))
    requires |s| > 0
    ensures |t| > 0 && s[0] == t[0]
  {
    assert s[0] in multiset(s);
    SortedHeadFirst(t, s[0]);
    assert t[0] in multiset(t);
    SortedHeadFirst(s, t[0]);
    assert SortKey(s[0]) == SortKey(t[0]);
  }

  lemma KeyInjectiveSub(m1: multiset<seq<Triple>>, m2: multiset<seq<Triple>>)
    requires m1 <= m2 && KeyInjective(m2)
    ensures KeyInjective(m1)
  {
    forall x, y | x in m1 && y in m1 && SortKey(x) == SortKey(y)
      ensures x == y
    {
      assert x in m2 && y in m2;
    }
  }

  lemma TailMultiset(s: seq<seq<Triple>>, t: seq<seq<Triple>>)
    requires |s| > 0 && |t| > 0 && s[0] == t[0] && multiset(s) == multiset(t)
    ensures multiset(s[1..]) == multiset(t[1..]) && multiset(s[1..]) <= multiset(s)
  {
    HeadTail(s);
    HeadTail(t);
    var a, b := multiset(s[1..]), multiset(t[1..]);
    forall x
      ensures a[x] == b[x]
    {
      assert multiset(s)[x] == multiset(t)[x];
    }
  }

  /** What is left after equal first columns is again two sorted orders of the same columns. */
  lemma TailsAgree(s: seq<seq<Triple>>, t: seq<seq<Triple>>)
    requires Sorted(s) && Sorted(t) && multiset(s) == multiset(t) && KeyInjective(multiset(s))
    requires |s| > 0 && |t| > 0 && s[0] == t[0]
    ensures Sorted(s[1..]) && Sorted(t[1..]) && multiset(s[1..]) == multiset(t[1..])
    ensures KeyInjective(multiset(s[1..]))
    ensures s == [s[0]] + s[1..] && t == [t[0]] + t[1..]
  {
    HeadTail(s);
    HeadTail(t);
    TailMultiset(s, t);
    KeyInjectiveSub(multiset(s[1..]), multiset(s));
  }

  lemma {:induction false} SortedUnique(s: seq<seq<Triple>>, t: seq<seq<Triple>>)
    requires Sorted(s) && Sorted(t)
    requires multiset(s) == multiset(t)
    requires KeyInjective(multiset(s))
    ensures s == t
    decreases |s|
  {
    if s == [] {
      assert |t| == |multiset(t)| == 0;
    } else {
      HeadsEqual(s, t);
      TailsAgree(s, t);
      SortedUnique(s[1..], t[1..]);
    }
  }

  lemma SerBoardAppend(a: seq<seq<Card>>, b: seq<seq<Card>>)
    ensures SerBoard(a + b) == SerBoard(a) + SerBoard(b)
  {
  }

  /** Serializing the columns of two boards that hold the same columns gives the same
      multiset of serialized columns. */
  lemma {:induction false} SerBoardPermutation(a: seq<seq<Card>>, b: seq<seq<Card>>)
    requires multiset(a) == multiset(b)
    ensures multiset(SerBoard(a)) == multiset(SerBoard(b))
    decreases |a|
  {
    if a != [] {
      assert a[0] in multiset(b);
      var k :| 0 <= k < |b| && b[k] == a[0];
      var b' := b[..k] + b[k + 1..];
      assert b == b[..k] + [b[k]] + b[k + 1..];
      assert multiset(b) == multiset(b[..k]) + multiset{b[k]} + multiset(b[k + 1..]);
      assert multiset(b') == multiset(b[..k]) + multiset(b[k + 1..]);
      assert a == [a[0]] + a[1..];
      assert multiset(a) == multiset{a[0]} + multiset(a[1..]);
      assert multiset(b) == multiset(b') + multiset{a[0]};
      assert multiset(a[1..]) == multiset(a) - multiset{a[0]};
      SerBoardPermutation(a[1..], b');
      SerBoardAppend([a[0]], a[1..]);
      SerBoardAppend(b[..k], [b[k]]);
      SerBoardAppend(b[..k] + [b[k]], b[k + 1..]);
      SerBoardAppend(b[..k], b[k + 1..]);
    }
  }

  /** No two columns of the tableau share a sort key unless they are equal; this holds
      when the non-empty columns have pairwise different last cards. */
  ghost predicate TailsDistinct(b: seq<seq<Card>>) {
    forall i, j :: 0 <= i < |b| && 0 <= j < |b| && SortKey(SerColumn(b[i])) == SortKey(SerColumn(b[j])) ==> b[i] == b[j]
  }

  lemma SerColumnInjective(p: seq<Card>, q: seq<Card>)
    requires SerColumn(p) == SerColumn(q)
    ensures p == q
  {
    assert |p| == |q|;
    forall k | 0 <= k < |p| ensures p[k] == q[k] {
      assert SerColumn(p)[k] == SerColumn(q)[k];
      assert SuitLetter(p[k].suit) == SuitLetter(q[k].suit);
    }
  }

  /** Distinct tails make the serialized columns' sort keys tell them apart. */
  lemma TailsDistinctInjective(b: seq<seq<Card>>)
    requires TailsDistinct(b)
    ensures KeyInjective(multiset(SerBoard(b)))
  {
    var s := SerBoard(b);
    forall x, y | x in multiset(s) && y in multiset(s) && SortKey(x) == SortKey(y)
      ensures x == y
    {
      var i :| 0 <= i < |s| && s[i] == x;
      var j :| 0 <= j < |s| && s[j] == y;
      assert b[i] == b[j];
    }
  }

  /** The canonical key does not depend on the order of the tableau columns: two positions
      that differ only by a reordering of columns whose tails are pairwise distinct (or
      which are empty) have the same key. */
  lemma ColumnOrderIrrelevant(g1: Game, g2: Game)
    requires g1.stock == g2.stock && g1.waste == g2.waste && g1.foundations == g2.foundations
    requires multiset(g1.board) == multiset(g2.board)
    requires TailsDistinct(g1.board)
    ensures SerializeState(g1) == SerializeState(g2)
  {
    var s1, s2 := SerBoard(g1.board), SerBoard(g2.board);
    SerBoardPermutation(g1.board, g2.board);
    SortColumnsCorrect(s1);
    SortColumnsCorrect(s2);
    TailsDistinctInjective(g1.board);
    SortedUnique(SortColumns(s1), SortColumns(s2));
  }

  /** Keys ignore the face-up flag of stock, waste and foundation cards. */
  lemma KeyIgnoresFlagsOutsideTableau(g1: Game, g2: Game)
    requires g1.board == g2.board
    requires Ids(g1.stock) == Ids(g2.stock) && Ids(g1.waste) == Ids(g2.waste)
    requires forall s :: Ids(g1.foundations.Get(s)) == Ids(g2.foundations.Get(s))
    ensures SerializeState(g1) == SerializeState(g2)
  {
    forall p: seq<Card>, q: seq<Card> | Ids(p) == Ids(q) ensures SerPairs(p) == SerPairs(q) {
      assert |p| == |Ids(p)| == |Ids(q)| == |q|;
      forall k | 0 <= k < |p| ensures SerPairs(p)[k] == SerPairs(q)[k] {
        assert Ids(p)[k] == Ids(q)[k];
      }
    }
    assert Ids(g1.foundations.Get(Hearts)) == Ids(g2.foundations.Get(Hearts));
    assert Ids(g1.foundations.Get(Diamonds)) == Ids(g2.foundations.Get(Diamonds));
    assert Ids(g1.foundations.Get(Clubs)) == Ids(g2.foundations.Get(Clubs));
    assert Ids(g1.foundations.Get(Spades)) == Ids(g2.foundations.Get(Spades));
  }

  /** With real ranks (at least 1), empty columns come first in the key. */
  lemma EmptyColumnsFirst(g: Game)
    requires forall i, k :: 0 <= i < |g.board| && 0 <= k < |g.board[i]| ==> g.board[i][k].rank >= 1
    ensures forall i, j :: 0 <= i < j < |SerializeState(g).board| && SerializeState(g).board[j] == [] ==>
              SerializeState(g).board[i] == []
  {
    var s := SerBoard(g.board);
    SortColumnsCorrect(s);
    var r := SortColumns(s);
    forall i, j | 0 <= i < j < |r| && r[j] == [] ensures r[i] == [] {
      assert ColLe(r[i], r[j]);
      assert r[i] in multiset(s);
      var c :| 0 <= c < |s| && s[c] == r[i];
    }
  }
}

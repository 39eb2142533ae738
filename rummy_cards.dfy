/** The card containers of the rummy prototype's cards.py: a plain rank/suit card, a
    `Hand` that is appended to, cut from and sorted in place by rank, and `DeckCard`, a
    singly linked chain of cards that is drawn from the front. */
module RummyCards {
  import opened Wrappers
  import opened PyList

  /** `Card(rank, suit)`; both are integers and never change after construction. */
  datatype Card = Card(rank: int, suit: int)

  // ---------------------------------------------------------------------------
  // The order `sort_hand` produces

  /** Cards in non-decreasing rank. */
  predicate SortedByRank(s: seq<Card>) {
    forall i, j :: 0 <= i < j < |s| ==> s[i].rank <= s[j].rank
  }

  /** One pass of the outer loop: `key` goes right after the last card whose rank is not
      above its own, every card of higher rank having moved one place right. */
  function Insert(s: seq<Card>, key: Card): (r: seq<Card>)
    ensures |r| == |s| + 1
    decreases |s|
  {
    if |s| == 0 || s[|s| - 1].rank <= key.rank then s + [key]
    else Insert(s[..|s| - 1], key) + [s[|s| - 1]]
  }

  /** The hand after `sort_hand`: each card inserted in turn into the sorted prefix. */
  function InsertionSort(s: seq<Card>): (r: seq<Card>)
    ensures |r| == |s|
    decreases |s|
  {
    if |s| == 0 then [] else Insert(InsertionSort(s[..|s| - 1]), s[|s| - 1])
  }

  /** The cards of rank `rank`, in hand order. */
  function OfRank(s: seq<Card>, rank: int): seq<Card>
    decreases |s|
  {
    if |s| == 0 then []
    else OfRank(s[..|s| - 1], rank) + (if s[|s| - 1].rank == rank then [s[|s| - 1]] else [])
  }

  lemma OfRankAppend(a: seq<Card>, b: Card, rank: int)
    ensures OfRank(a + [b], rank) == OfRank(a, rank) + (if b.rank == rank then [b] else [])
  {
    assert (a + [b])[..|a|] == a;
  }

  /** Where the inner loop stops: at `p`, with every card from `p` on ranked above `key`
      and the card before `p` (if any) not above it. */
  lemma {:induction false} InsertAt(s: seq<Card>, key: Card, p: nat)
    requires p <= |s|
    requires p == 0 || s[p - 1].rank <= key.rank
    requires forall q :: p <= q < |s| ==> key.rank < s[q].rank
    ensures Insert(s, key) == s[..p] + [key] + s[p..]
    decreases |s|
  {
    if p < |s| {
      var front := s[..|s| - 1];
      InsertAt(front, key, p);
      assert front[..p] == s[..p];
      assert front[p..] + [s[|s| - 1]] == s[p..];
    }
  }

  lemma {:induction false} InsertKeepsSorted(s: seq<Card>, key: Card)
    requires SortedByRank(s)
    ensures SortedByRank(Insert(s, key))
    decreases |s|
  {
    if |s| > 0 && s[|s| - 1].rank > key.rank {
      var front := s[..|s| - 1];
      var last := s[|s| - 1];
      InsertKeepsSorted(front, key);
      InsertMultiset(front, key);
      var r := Insert(front, key);
      forall k | 0 <= k < |r|
        ensures r[k].rank <= last.rank
      {
        assert r[k] in multiset(r);
        if r[k] != key {
          assert r[k] in multiset(front);
        }
      }
      assert Insert(s, key) == r + [last];
    }
  }

  lemma {:induction false} InsertMultiset(s: seq<Card>, key: Card)
    ensures multiset(Insert(s, key)) == multiset(s) + multiset{key}
    decreases |s|
  {
    if |s| > 0 && s[|s| - 1].rank > key.rank {
      var front := s[..|s| - 1];
      InsertMultiset(front, key);
      assert s == front + [s[|s| - 1]];
    }
  }

  /** Inserting `key` puts it after every card of its own rank and leaves the order of the
      cards of every rank as it was. */
  lemma {:induction false} InsertOfRank(s: seq<Card>, key: Card, rank: int)
    ensures OfRank(Insert(s, key), rank) == OfRank(s, rank) + (if key.rank == rank then [key] else [])
    decreases |s|
  {
    if |s| == 0 || s[|s| - 1].rank <= key.rank {
      OfRankAppend(s, key, rank);
    } else {
      var front := s[..|s| - 1];
      var last := s[|s| - 1];
      InsertOfRank(front, key, rank);
      OfRankAppend(Insert(front, key), last, rank);
      assert s == front + [last];
      OfRankAppend(front, last, rank);
    }
  }

  /** `sort_hand` orders the hand by rank. */
  lemma {:induction false} InsertionSortSorted(s: seq<Card>)
    ensures SortedByRank(InsertionSort(s))
    decreases |s|
  {
    if |s| > 0 {
      InsertionSortSorted(s[..|s| - 1]);
      InsertKeepsSorted(InsertionSort(s[..|s| - 1]), s[|s| - 1]);
    }
  }

  /** `sort_hand` only rearranges the hand. */
  lemma {:induction false} InsertionSortPermutes(s: seq<Card>)
    ensures multiset(InsertionSort(s)) == multiset(s)
    decreases |s|
  {
    if |s| > 0 {
      InsertionSortPermutes(s[..|s| - 1]);
      InsertMultiset(InsertionSort(s[..|s| - 1]), s[|s| - 1]);
      assert s == s[..|s| - 1] + [s[|s| - 1]];
    }
  }

  /** `sort_hand` is stable: the cards of each rank keep their relative order, because a
      card moves left only past cards of strictly higher rank. */
  lemma {:induction false} InsertionSortStable(s: seq<Card>, rank: int)
    ensures OfRank(InsertionSort(s), rank) == OfRank(s, rank)
    decreases |s|
  {
    if |s| > 0 {
      InsertionSortStable(s[..|s| - 1], rank);
      InsertOfRank(InsertionSort(s[..|s| - 1]), s[|s| - 1], rank);
    }
  }

  // ---------------------------------------------------------------------------
  // Hand

  class Hand {
    var hand: seq<Card>
    var handNumber: Option<int>

    constructor (handNumber: Option<int>)
      ensures hand == [] && this.handNumber == handNumber
    {
      hand := [];
      this.handNumber := handNumber;
    }

    method AddCard(newCard: Card)
      modifies this
      ensures hand == old(hand) + [newCard] && handNumber == old(handNumber)
    {
      hand := hand + [newCard];
    }

    /** `get_card`: Python indexing, negative indices counting from the end. */
    function GetCard(idx: int): (c: Card)
      reads this
      requires -|hand| <= idx < |hand|
      ensures c in hand
      ensures idx >= 0 ==> c == hand[idx]
      ensures idx < 0 ==> c == hand[|hand| + idx]
    {
      hand[PyIndex(idx, |hand|)]
    }

    /** `extract_card`: `pop(idx)` removes the card at `idx` and returns it. */
    method ExtractCard(idx: int) returns (c: Card)
      modifies this
      requires -|hand| <= idx < |hand|
      ensures var k := PyIndex(idx, |old(hand)|);
        c == old(hand)[k] && hand == old(hand)[..k] + old(hand)[k + 1..]
      ensures multiset(hand) + multiset{c} == multiset(old(hand))
      ensures handNumber == old(handNumber)
    {
      var k := PyIndex(idx, |hand|);
      c := hand[k];
      assert hand == hand[..k] + [c] + hand[k + 1..];
      hand := hand[..k] + hand[k + 1..];
    }

    /** `add_hand`: the given cards, in order, after the hand's own. */
    method AddHand(newHand: seq<Card>)
      modifies this
      ensures hand == old(hand) + newHand && handNumber == old(handNumber)
    {
      hand := hand + newHand;
    }

    function GetHandList(): (s: seq<Card>)
      reads this
      ensures |s| == |hand| && forall k :: 0 <= k < |s| ==> s[k] == hand[k]
    {
      hand
    }

    /** `sort_hand`: insertion sort in place, shifting higher-ranked cards one slot right
        while the key's rank is strictly lower. */
    method SortHand()
      modifies this
      ensures hand == InsertionSort(old(hand))
      ensures SortedByRank(hand) && multiset(hand) == multiset(old(hand))
      ensures handNumber == old(handNumber)
    {
      ghost var original := hand;
      var i := 1;
      while i < |hand|
        invariant |hand| == |original| && 1 <= i
        invariant |hand| > 0 ==> i <= |hand| && hand[..i] == InsertionSort(original[..i]) && hand[i..] == original[i..]
        invariant |hand| == 0 ==> hand == original
        invariant handNumber == old(handNumber)
      {
        InsertKey(original, i);
        i := i + 1;
      }
      if |hand| > 0 {
        assert hand == hand[..i] && original == original[..i];
      }
      InsertionSortSorted(original);
      InsertionSortPermutes(original);
    }

    /** One pass of the outer loop: `hand[i]` is moved left into the sorted prefix. */
    method InsertKey(ghost original: seq<Card>, i: nat)
      modifies this
      requires 0 < i < |hand| == |original|
      requires hand[..i] == InsertionSort(original[..i]) && hand[i..] == original[i..]
      ensures |hand| == |original| && handNumber == old(handNumber)
      ensures hand[..i + 1] == InsertionSort(original[..i + 1]) && hand[i + 1..] == original[i + 1..]
    {
      ghost var sorted := InsertionSort(original[..i]);
      assert forall q :: 0 <= q < i ==> hand[q] == sorted[q];
      assert forall q :: i <= q < |hand| ==> hand[q] == original[q];
      var key := hand[i];
      var j := ShiftHigher(key, i);
      hand := hand[j + 1 := key];
      InsertedPrefix(hand, original, sorted, key, i, j + 1);
    }

    /** The inner loop of `sort_hand`: every card before `i` ranked strictly above `key`,
        scanning leftwards from `i - 1`, moves one slot right. It stops at `j`, the last
        card (if any) not above `key`; slot `j + 1` is then free for the key. */
    method ShiftHigher(key: Card, i: nat) returns (j: int)
      modifies this
      requires 0 < i < |hand|
      ensures -1 <= j < i && |hand| == |old(hand)| && handNumber == old(handNumber)
      ensures forall q :: 0 <= q <= j ==> hand[q] == old(hand)[q]
      ensures forall q :: j + 2 <= q <= i ==> hand[q] == old(hand)[q - 1]
      ensures forall q :: i < q < |hand| ==> hand[q] == old(hand)[q]
      ensures forall q :: j + 1 <= q < i ==> key.rank < old(hand)[q].rank
      ensures j >= 0 ==> old(hand)[j].rank <= key.rank
    {
      var a, a0 := hand, hand;
      j := i - 1;
      while j >= 0 && key.rank < a[j].rank
        invariant -1 <= j <= i - 1 && |a| == |a0|
        invariant forall q :: 0 <= q <= j ==> a[q] == a0[q]
        invariant forall q :: j + 2 <= q <= i ==> a[q] == a0[q - 1]
        invariant forall q :: i < q < |a| ==> a[q] == a0[q]
        invariant forall q :: j + 1 <= q < i ==> key.rank < a0[q].rank
      {
        a := a[j + 1 := a[j]];
        j := j - 1;
      }
      hand := a;
    }
  }

  /** The list after one pass of the outer loop, slot by slot: the sorted prefix up to
      `p`, the key at `p`, the rest of the prefix shifted one slot right, and the
      unsorted tail untouched. That is the sorted prefix of one more card. */
  lemma InsertedPrefix(h: seq<Card>, original: seq<Card>, sorted: seq<Card>, key: Card, i: nat, p: nat)
    requires i < |h| == |original| && p <= i && key == original[i]
    requires sorted == InsertionSort(original[..i])
    requires forall q :: 0 <= q < p ==> h[q] == sorted[q]
    requires h[p] == key
    requires forall q :: p + 1 <= q <= i ==> h[q] == sorted[q - 1]
    requires forall q :: i < q < |h| ==> h[q] == original[q]
    requires p == 0 || sorted[p - 1].rank <= key.rank
    requires forall q :: p <= q < i ==> key.rank < sorted[q].rank
    ensures h[..i + 1] == InsertionSort(original[..i + 1]) && h[i + 1..] == original[i + 1..]
  {
    Spliced(h, sorted, key, i, p);
    InsertAt(sorted, key, p);
    assert original[..i + 1][..i] == original[..i];
  }

  /** Slots 0..i of `h` spell `sorted` with `key` spliced in at `p`. */
  lemma Spliced(h: seq<Card>, sorted: seq<Card>, key: Card, i: nat, p: nat)
    requires i < |h| && |sorted| == i && p <= i && h[p] == key
    requires forall q :: 0 <= q < p ==> h[q] == sorted[q]
    requires forall q :: p + 1 <= q <= i ==> h[q] == sorted[q - 1]
    ensures h[..i + 1] == sorted[..p] + [key] + sorted[p..]
  {
    var spliced := sorted[..p] + [key] + sorted[p..];
    forall q | 0 <= q <= i
      ensures h[q] == spliced[q]
    {
      if q < p {
        assert spliced[q] == sorted[q];
      } else if p < q {
        assert spliced[q] == sorted[q - 1];
      }
    }
  }

  // ---------------------------------------------------------------------------
  // DeckCard

  /** A node of the linked deck: its card and the rest of the chain. `Contents` is the
      chain's cards from this node on, and `Repr` the nodes that hold them. */
  class DeckCard {
    var card: Card
    var next: DeckCard?
    ghost var Contents: seq<Card>
    ghost var Repr: set<object>

    ghost predicate Valid()
      reads this, Repr
      decreases Repr
    {
      this in Repr &&
      (next == null ==> Contents == [card]) &&
      (next != null ==>
        next in Repr && next.Repr <= Repr && this !in next.Repr &&
        Contents == [card] + next.Contents && next.Valid())
    }

    constructor (card: Card, next: DeckCard?)
      requires next != null ==> next.Valid()
      ensures Valid() && this.card == card && this.next == next
      ensures next == null ==> Contents == [card] && Repr == {this}
      ensures next != null ==> Contents == [card] + next.Contents && Repr == {this} + next.Repr
    {
      this.card := card;
      this.next := next;
      if next == null {
        Contents := [card];
        Repr := {this};
      } else {
        Contents := [card] + next.Contents;
        Repr := {this} + next.Repr;
      }
    }

    /** `draw_card`: the chain's first card is returned and this node takes over the
        second node's card and link. A chain of one node gives nothing, so its card is
        never drawn. */
    method DrawCard() returns (r: Option<Card>)
      requires Valid()
      modifies this
      ensures Valid() && Repr <= old(Repr)
      ensures |old(Contents)| == 1 ==> r == None && Contents == old(Contents)
      ensures |old(Contents)| > 1 ==> r == Some(old(Contents)[0]) && Contents == old(Contents)[1..]
    {
      if next == null {
        return None;
      }
      var temp := card;
      var rest := next.next;
      assert next.Valid() && (rest != null ==> rest.Valid() && rest in rest.Repr && rest.Repr <= next.Repr);
      card := next.card;
      Contents := next.Contents;
      Repr := {this} + (if rest == null then {} else rest.Repr);
      next := rest;
      return Some(temp);
    }
  }
}

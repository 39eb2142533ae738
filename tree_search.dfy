/** The depth-bounded backtracking search of game_logic/best_move_tree.py: the root
    filter against recently repeated moves, the foundation shortcut, the move ordering,
    the near-tie bookkeeping and the shared `visited` set. `random.choice` is an
    arbitrary member of the list it is given and `random.uniform(0, 1.0)` an arbitrary
    real in [0, 1). The `visited` set, which the source shares between calls, is passed
    in and handed back. */
module TreeSearch {
  import opened Wrappers
  import opened Text
  import opened Cards
  import opened GameState
  import opened Serialize
  import opened Scoring
  import opened Moves
  import opened MoveGeneration

  /** The moves of `s` that satisfy `p`, in order (a list comprehension). */
  function Filter(s: seq<Move>, p: Move -> bool): (r: seq<Move>)
    ensures forall x :: x in r <==> x in s && p(x)
    ensures |r| <= |s|
    decreases |s|
  {
    if |s| == 0 then []
    else
      var r := Filter(s[..|s| - 1], p) + (if p(s[|s| - 1]) then [s[|s| - 1]] else []);
      assert s == s[..|s| - 1] + [s[|s| - 1]];
      r
  }

  /** Filtering one more element of a prefix appends it when it qualifies. */
  lemma FilterPrefix(s: seq<Move>, k: nat, p: Move -> bool)
    requires k < |s|
    ensures Filter(s[..k + 1], p) == Filter(s[..k], p) + (if p(s[k]) then [s[k]] else [])
  {
    assert s[..k + 1][..k] == s[..k];
  }

  const IsFoundation: Move -> bool := m => IsFoundationMove(m)

  // ---------------------------------------------------------------------------
  // Move signatures and the root filter

  /** An entry of `recent_moves`: the values under "type", "from" and "to", each
      possibly missing. */
  datatype RecentMove = RecentMove(kind: Option<string>, src: Option<int>, dst: Option<int>)

  /** How an f-string prints a value that may be None. */
  function OptText(v: Option<int>): (s: string)
    ensures v.None? <==> s == "None"
  {
    match v
    case None => "None"
    case Some(i) => IntToString(i)
  }

  /** `move.details.get('from')`. */
  function MoveSource(m: Move): Option<int> {
    match m
    case BoardToFoundation(src, _, _) => Some(src)
    case BoardToBoard(src, _, _, _) => Some(src)
    case _ => None
  }

  /** `move.details.get('to')`. */
  function MoveDest(m: Move): Option<int> {
    match m
    case BoardToBoard(_, dst, _, _) => Some(dst)
    case _ => None
  }

  /** `f"{move.move_type}_{from}_{to}"`. */
  function MoveSig(m: Move): string {
    KindName(m) + "_" + OptText(MoveSource(m)) + "_" + OptText(MoveDest(m))
  }

  /** `f"{recent.get('type')}_{recent.get('from')}_{recent.get('to')}"`. */
  function RecentSig(r: RecentMove): string {
    (match r.kind case None => "None" case Some(k) => k) + "_" + OptText(r.src) + "_" + OptText(r.dst)
  }

  /** `recent_moves[-10:]`. */
  function Window(recent: seq<RecentMove>): (w: seq<RecentMove>)
    ensures |w| == if |recent| <= 10 then |recent| else 10
  {
    if |recent| <= 10 then recent else recent[|recent| - 10..]
  }

  /** How many of the first `n` entries of `w` print as `sig`, an entry printing as
      `sigOf` says (`RecentSig` in the source's filter). */
  function CountSig(sigOf: RecentMove -> string, sig: string, w: seq<RecentMove>, n: nat): (c: nat)
    requires n <= |w|
    ensures c <= n
  {
    if n == 0 then 0
    else CountSig(sigOf, sig, w, n - 1) + (if sigOf(w[n - 1]) == sig then 1 else 0)
  }

  /** Some entry among the last three prints as `sig` (only checked from three on). */
  predicate ImmediateRepeat(sigOf: RecentMove -> string, sig: string, recent: seq<RecentMove>) {
    |recent| >= 3 && exists k :: |recent| - 3 <= k < |recent| && sigOf(recent[k]) == sig
  }

  /** A move the root filter drops: never a foundation move; otherwise one made three
      times in the last ten entries or repeated within the last three. */
  predicate Blocked(m: Move, recent: seq<RecentMove>) {
    !IsFoundationMove(m) &&
    (CountSig(RecentSig, MoveSig(m), Window(recent), |Window(recent)|) >= 3 ||
     ImmediateRepeat(RecentSig, MoveSig(m), recent))
  }

  function Keep(recent: seq<RecentMove>): Move -> bool {
    m => !Blocked(m, recent)
  }

  /** The root filter: the unblocked moves, or all of them when every move is blocked. */
  function RootFilter(moves: seq<Move>, recent: seq<RecentMove>): seq<Move> {
    var kept := Filter(moves, Keep(recent));
    if |kept| > 0 then kept else moves
  }

  /** The filter loop of `search_best_move`, with its inner loops over the history. */
  method FilterRecentMoves(moves: seq<Move>, recent: seq<RecentMove>) returns (legal: seq<Move>)
    ensures legal == RootFilter(moves, recent)
  {
    var filtered := [];
    var k := 0;
    while k < |moves|
      invariant 0 <= k <= |moves|
      invariant filtered == Filter(moves[..k], Keep(recent))
    {
      var move := moves[k];
      var blocked := IsBlocked(move, recent);
      if !blocked {
        filtered := filtered + [move];
      }
      FilterPrefix(moves, k, Keep(recent));
      k := k + 1;
    }
    assert moves[..|moves|] == moves;
    legal := if |filtered| > 0 then filtered else moves;
  }

  /** The body of the filter loop for one move. */
  method IsBlocked(move: Move, recent: seq<RecentMove>) returns (blocked: bool)
    ensures blocked == Blocked(move, recent)
  {
    if IsFoundationMove(move) {
      return false;
    }
    var sig := MoveSig(move);
    var count := CountRecent(RecentSig, sig, if |recent| <= 10 then recent else recent[|recent| - 10..]);
    var immediate := false;
    if |recent| >= 3 {
      immediate := InLastThree(RecentSig, sig, recent);
    }
    blocked := count >= 3 || immediate;
  }

  /** The loop counting the history entries with signature `sig`. */
  method CountRecent(sigOf: RecentMove -> string, sig: string, w: seq<RecentMove>) returns (count: nat)
    ensures count == CountSig(sigOf, sig, w, |w|)
  {
    count := 0;
    var i := 0;
    while i < |w|
      invariant 0 <= i <= |w|
      invariant count == CountSig(sigOf, sig, w, i)
    {
      if sigOf(w[i]) == sig {
        count := count + 1;
      }
      i := i + 1;
    }
  }

  /** The loop over `recent_moves[-3:]`, stopping at the first match. */
  method InLastThree(sigOf: RecentMove -> string, sig: string, recent: seq<RecentMove>) returns (found: bool)
    requires |recent| >= 3
    ensures found == ImmediateRepeat(sigOf, sig, recent)
  {
    var j := |recent| - 3;
    while j < |recent|
      invariant |recent| - 3 <= j <= |recent|
      invariant forall l :: |recent| - 3 <= l < j ==> sigOf(recent[l]) != sig
    {
      if sigOf(recent[j]) == sig {
        return true;
      }
      j := j + 1;
    }
    return false;
  }

  /** The root filter keeps every foundation move, keeps only offered moves, drops
      exactly the blocked ones when something survives, and never empties a non-empty
      list. */
  lemma RootFilterProperties(moves: seq<Move>, recent: seq<RecentMove>, m: Move)
    ensures m in RootFilter(moves, recent) ==> m in moves
    ensures m in moves && IsFoundationMove(m) ==> m in RootFilter(moves, recent)
    ensures |Filter(moves, Keep(recent))| > 0 ==> (m in RootFilter(moves, recent) <==> m in moves && !Blocked(m, recent))
    ensures |moves| > 0 ==> |RootFilter(moves, recent)| > 0
  {
    var kept := Filter(moves, Keep(recent));
    if m in moves && IsFoundationMove(m) {
      assert Keep(recent)(m);
    }
  }

  // ---------------------------------------------------------------------------
  // Move ordering

  /** `move_priority`. */
  function Priority(m: Move): nat {
    if IsFoundationMove(m) then 3
    else if m.BoardToBoard? || m.WasteToBoard? then 2
    else if m.DrawStock? then 1
    else 0
  }

  function HasPriority(p: nat): Move -> bool {
    m => Priority(m) == p
  }

  /** `legal_moves.sort(key=move_priority, reverse=True)`: Python's sort is stable, so
      each priority class keeps its order and the classes come highest first. */
  function OrderMoves(moves: seq<Move>): seq<Move> {
    Filter(moves, HasPriority(3)) + Filter(moves, HasPriority(2)) + Filter(moves, HasPriority(1))
    + Filter(moves, HasPriority(0))
  }

  /** The moves of priority `p`, counted with multiplicity. */
  function ClassBag(s: seq<Move>, p: nat): multiset<Move>
    decreases |s|
  {
    if |s| == 0 then multiset{}
    else ClassBag(s[..|s| - 1], p) + (if Priority(s[|s| - 1]) == p then multiset{s[|s| - 1]} else multiset{})
  }

  lemma {:induction false} ClassBagIsFilter(s: seq<Move>, p: nat)
    ensures multiset(Filter(s, HasPriority(p))) == ClassBag(s, p)
    decreases |s|
  {
    if |s| > 0 {
      ClassBagIsFilter(s[..|s| - 1], p);
    }
  }

  lemma MultisetOfSnoc(s: seq<Move>)
    requires |s| > 0
    ensures multiset(s) == multiset(s[..|s| - 1]) + multiset{s[|s| - 1]}
  {
    assert s == s[..|s| - 1] + [s[|s| - 1]];
  }

  lemma {:induction false} ClassesCoverAll(s: seq<Move>)
    ensures ClassBag(s, 3) + ClassBag(s, 2) + ClassBag(s, 1) + ClassBag(s, 0) == multiset(s)
    decreases |s|
  {
    if |s| > 0 {
      var t := s[..|s| - 1];
      var x := s[|s| - 1];
      ClassesCoverAll(t);
      MultisetOfSnoc(s);
      var a, b, c, d := ClassBag(t, 3), ClassBag(t, 2), ClassBag(t, 1), ClassBag(t, 0);
      if Priority(x) == 3 {
        assert ClassBag(s, 3) == a + multiset{x};
        assert ClassBag(s, 2) == b && ClassBag(s, 1) == c && ClassBag(s, 0) == d;
      } else if Priority(x) == 2 {
        assert ClassBag(s, 2) == b + multiset{x};
        assert ClassBag(s, 3) == a && ClassBag(s, 1) == c && ClassBag(s, 0) == d;
      } else if Priority(x) == 1 {
        assert ClassBag(s, 1) == c + multiset{x};
        assert ClassBag(s, 3) == a && ClassBag(s, 2) == b && ClassBag(s, 0) == d;
      } else {
        assert ClassBag(s, 0) == d + multiset{x};
        assert ClassBag(s, 3) == a && ClassBag(s, 2) == b && ClassBag(s, 1) == c;
      }
    }
  }

  /** The ordering only permutes the moves. */
  lemma OrderMovesPermutes(moves: seq<Move>)
    ensures multiset(OrderMoves(moves)) == multiset(moves)
  {
    ClassBagIsFilter(moves, 3);
    ClassBagIsFilter(moves, 2);
    ClassBagIsFilter(moves, 1);
    ClassBagIsFilter(moves, 0);
    ClassesCoverAll(moves);
  }

  predicate NonIncreasing(s: seq<Move>) {
    forall i, j :: 0 <= i < j < |s| ==> Priority(s[i]) >= Priority(s[j])
  }

  lemma ConcatNonIncreasing(a: seq<Move>, b: seq<Move>)
    requires NonIncreasing(a) && NonIncreasing(b)
    requires forall x, y :: x in a && y in b ==> Priority(x) >= Priority(y)
    ensures NonIncreasing(a + b)
  {
    var s := a + b;
    forall i, j | 0 <= i < j < |s|
      ensures Priority(s[i]) >= Priority(s[j])
    {
      if i < |a| && j >= |a| {
        assert s[i] in a && s[j] == b[j - |a|] && s[j] in b;
      } else if i >= |a| {
        assert s[i] == b[i - |a|] && s[j] == b[j - |a|];
      }
    }
  }

  lemma ClassNonIncreasing(moves: seq<Move>, p: nat)
    ensures NonIncreasing(Filter(moves, HasPriority(p)))
    ensures forall x :: x in Filter(moves, HasPriority(p)) ==> Priority(x) == p
  {
    var f := Filter(moves, HasPriority(p));
    forall x | x in f
      ensures Priority(x) == p
    {
      assert HasPriority(p)(x);
    }
    forall i, j | 0 <= i < j < |f|
      ensures Priority(f[i]) >= Priority(f[j])
    {
      assert f[i] in f && f[j] in f;
    }
  }

  /** After ordering, priorities never increase along the list. */
  lemma OrderMovesSorted(moves: seq<Move>)
    ensures NonIncreasing(OrderMoves(moves))
  {
    var a, b, c, d := Filter(moves, HasPriority(3)), Filter(moves, HasPriority(2)),
                      Filter(moves, HasPriority(1)), Filter(moves, HasPriority(0));
    ClassNonIncreasing(moves, 3);
    ClassNonIncreasing(moves, 2);
    ClassNonIncreasing(moves, 1);
    ClassNonIncreasing(moves, 0);
    ConcatNonIncreasing(c, d);
    ConcatNonIncreasing(b, c + d);
    ConcatNonIncreasing(a, b + (c + d));
    assert a + b + c + d == a + (b + (c + d));
  }

  // ---------------------------------------------------------------------------
  // Search parameters

  /** The source's tie test `abs(score - best_score) < 5.0`; with an infinite side the
      difference is infinite or undefined and the test fails. */
  predicate NearTie(a: ExtReal, b: ExtReal) {
    a.Fin? && b.Fin? && -5.0 < a.r - b.r < 5.0
  }

  /** The moves a node expands: the legal moves, passed through the root filter at depth
      6 when there is a history. */
  function Candidates(g: Game, depth: nat, recent: seq<RecentMove>): seq<Move> {
    if |recent| > 0 && depth == 6 then RootFilter(LegalMoves(g), recent) else LegalMoves(g)
  }

  /** The node neither hits `visited` nor is a leaf, so it looks at its moves. */
  predicate Expands(g: Game, depth: nat, visited: set<StateKey>) {
    SerializeState(g) !in visited && depth > 0 && |LegalMoves(g)| > 0
  }

  /** The foundation shortcut fires: depth is literally 6 and a foundation move is a
      candidate. */
  predicate Shortcut(g: Game, depth: nat, recent: seq<RecentMove>) {
    depth == 6 && |Filter(Candidates(g, depth, recent), IsFoundation)| > 0
  }

  lemma CandidatesAreLegal(g: Game, depth: nat, recent: seq<RecentMove>, m: Move)
    requires m in Candidates(g, depth, recent)
    ensures m in LegalMoves(g) && IsLegal(g, m) && MoveInRange(g, m)
  {
    if |recent| > 0 && depth == 6 {
      RootFilterProperties(LegalMoves(g), recent, m);
    }
    LegalMovesExactly(g, m);
  }

  // ---------------------------------------------------------------------------
  // What a search may return

  /** The record of one call of `search_best_move`: its score, its move and the `visited`
      set it hands back; for an expanded node also the record of every child searched,
      the adjusted child scores and the final near-tie list, in the order tried. */
  datatype SearchTrace = SearchTrace(score: ExtReal, best: Option<Move>, visitedOut: set<StateKey>,
                                     kids: seq<SearchTrace>, adjusted: seq<ExtReal>, ties: seq<Move>)

  /** The `visited` set the `i`-th child is searched with: the node's own for the first
      child, the one the previous child handed back for the others. */
  function Before(base: set<StateKey>, kids: seq<SearchTrace>, i: nat): set<StateKey>
    requires i <= |kids|
  {
    if i == 0 then base else kids[i - 1].visitedOut
  }

  /** `t` is an outcome `search_best_move(g, depth, visited, recent_moves)` can have. The
      only freedom left is the noise of `random.uniform` and the picks of `random.choice`. */
  predicate Searched(env: Env, g: Game, depth: nat, visited: set<StateKey>, recent: seq<RecentMove>,
                     t: SearchTrace)
    decreases depth, 3, 0
  {
    var key := SerializeState(g);
    if key in visited then
      t.score == NegInf && t.best == None && t.visitedOut == visited
    else if depth == 0 || |LegalMoves(g)| == 0 then
      t.score == Fin(Score(env.points, g)) && t.best == None && t.visitedOut == visited + {key}
    else
      Explored(env, g, depth, visited + {key}, recent, t)
  }

  /** The outcome of the part after the leaf tests, for a node whose key is in `base`:
      the foundation shortcut, or every ordered move's child searched in turn with the
      shared set, the tie loop over the adjusted scores, the tie-break, and the key taken
      out of the set again. */
  predicate Explored(env: Env, g: Game, depth: nat, base: set<StateKey>, recent: seq<RecentMove>,
                     t: SearchTrace)
    requires depth > 0
    decreases depth, 2, 0
  {
    if Shortcut(g, depth, recent) then
      t.score == Fin(1000.0) && t.best.Some? &&
      t.best.value in Filter(Candidates(g, depth, recent), IsFoundation) && t.visitedOut == base
    else
      var ordered := OrderMoves(Candidates(g, depth, recent));
      |t.kids| == |ordered| && |t.adjusted| == |ordered| &&
      KidsSearched(env, g, depth - 1, base, ordered, t.kids, t.adjusted) &&
      (t.score, t.ties) == Scan(ordered, t.adjusted) && TieBreak(t.ties, t.best) &&
      t.visitedOut == Before(base, t.kids, |t.kids|) - {SerializeState(g)}
  }

  /** The first `|kids|` children of a node, searched at depth `sub` (one less than the
      node's), each as `KidOk` states. */
  predicate KidsSearched(env: Env, g: Game, sub: nat, base: set<StateKey>, ordered: seq<Move>,
                         kids: seq<SearchTrace>, adjusted: seq<ExtReal>)
    decreases sub + 1, 1, |kids|
  {
    |kids| == |adjusted| <= |ordered| &&
    (|kids| > 0 ==>
       var n := |kids| - 1;
       KidsSearched(env, g, sub, base, ordered, kids[..n], adjusted[..n]) &&
       KidOk(env, g, sub, ordered[n], Before(base, kids, n), kids[n], adjusted[n]))
  }

  /** A child: the searched outcome of the move's position at depth `sub`, with no
      history and the set `before`, and `s` its score as the loop adjusts it. */
  predicate KidOk(env: Env, g: Game, sub: nat, move: Move, before: set<StateKey>, kid: SearchTrace, s: ExtReal)
    decreases sub + 1, 0, 0
  {
    MoveInRange(g, move) && Searched(env, ApplyMove(env, g, move), sub, before, [], kid) &&
    Adjusts(move, kid.score, s)
  }

  lemma KidsSearchedSnoc(env: Env, g: Game, sub: nat, base: set<StateKey>, ordered: seq<Move>,
                         kids: seq<SearchTrace>, adjusted: seq<ExtReal>, kid: SearchTrace, s: ExtReal)
    requires KidsSearched(env, g, sub, base, ordered, kids, adjusted) && |kids| < |ordered|
    requires KidOk(env, g, sub, ordered[|kids|], Before(base, kids, |kids|), kid, s)
    ensures KidsSearched(env, g, sub, base, ordered, kids + [kid], adjusted + [s])
    ensures Before(base, kids + [kid], |kids| + 1) == kid.visitedOut
  {
    var kids2, adjusted2 := kids + [kid], adjusted + [s];
    assert kids2[..|kids|] == kids && adjusted2[..|kids|] == adjusted;
    assert Before(base, kids2, |kids|) == Before(base, kids, |kids|);
  }

  /** Each of the children `KidsSearched` covers is as `KidOk` states. */
  lemma {:induction false} KidsSearchedAt(env: Env, g: Game, sub: nat, base: set<StateKey>, ordered: seq<Move>,
                                          kids: seq<SearchTrace>, adjusted: seq<ExtReal>, k: nat)
    requires KidsSearched(env, g, sub, base, ordered, kids, adjusted) && k < |kids|
    ensures KidOk(env, g, sub, ordered[k], Before(base, kids, k), kids[k], adjusted[k])
    decreases |kids|
  {
    var n := |kids| - 1;
    if k < n {
      KidsSearchedAt(env, g, sub, base, ordered, kids[..n], adjusted[..n], k);
      assert Before(base, kids[..n], k) == Before(base, kids, k);
    }
  }

  // ---------------------------------------------------------------------------
  // The tie loop

  /** `best_score` and `best_moves` after the loop has seen the adjusted scores of the
      first `|adjusted|` ordered moves: a strictly higher score restarts the list, a score
      within 5.0 of the best joins it. */
  function Scan(ordered: seq<Move>, adjusted: seq<ExtReal>): (r: (ExtReal, seq<Move>))
    requires |adjusted| <= |ordered|
    ensures r.0.NegInf? <==> |r.1| == 0
    ensures forall m :: m in r.1 ==> m in ordered
    decreases |adjusted|
  {
    if |adjusted| == 0 then (NegInf, [])
    else
      var n := |adjusted| - 1;
      var prev := Scan(ordered, adjusted[..n]);
      var s := adjusted[n];
      if s.Above(prev.0) then (s, [ordered[n]])
      else if NearTie(s, prev.0) then (prev.0, prev.1 + [ordered[n]])
      else prev
  }

  /** The moves from `lo` up to `hi` whose adjusted score is within 5.0 of `b`, in order. */
  function NearIn(ordered: seq<Move>, adjusted: seq<ExtReal>, lo: nat, hi: nat, b: ExtReal): seq<Move>
    requires lo <= hi <= |adjusted| <= |ordered|
    decreases hi
  {
    if lo == hi then []
    else NearIn(ordered, adjusted, lo, hi - 1, b) + (if NearTie(adjusted[hi - 1], b) then [ordered[hi - 1]] else [])
  }

  /** `j` is the first index whose adjusted score is `b`. */
  predicate FirstAt(adjusted: seq<ExtReal>, j: int, b: ExtReal) {
    0 <= j < |adjusted| && adjusted[j] == b && forall i :: 0 <= i < j ==> adjusted[i] != b
  }

  lemma {:induction false} NearInPrefix(ordered: seq<Move>, adjusted: seq<ExtReal>, longer: seq<ExtReal>,
                                        lo: nat, hi: nat, b: ExtReal)
    requires lo <= hi <= |adjusted| <= |longer| <= |ordered|
    requires forall i :: 0 <= i < |adjusted| ==> longer[i] == adjusted[i]
    ensures NearIn(ordered, adjusted, lo, hi, b) == NearIn(ordered, longer, lo, hi, b)
    decreases hi
  {
    if lo < hi {
      NearInPrefix(ordered, adjusted, longer, lo, hi - 1, b);
    }
  }

  /** What the loop ends with, stated without the loop: no adjusted score is above the
      best; the best is reached first at some index `j`, whose move heads the tie list;
      and the list goes on with exactly the later moves within 5.0 of the best, in order. */
  lemma {:induction false} ScanClosedForm(ordered: seq<Move>, adjusted: seq<ExtReal>)
    requires |adjusted| <= |ordered|
    ensures forall i :: 0 <= i < |adjusted| ==> !adjusted[i].Above(Scan(ordered, adjusted).0)
    ensures Scan(ordered, adjusted).0.Fin? ==>
      exists j :: FirstAt(adjusted, j, Scan(ordered, adjusted).0) &&
        Scan(ordered, adjusted).1 == [ordered[j]] + NearIn(ordered, adjusted, j + 1, |adjusted|, Scan(ordered, adjusted).0)
    decreases |adjusted|
  {
    if |adjusted| > 0 {
      var n := |adjusted| - 1;
      var front := adjusted[..n];
      ScanClosedForm(ordered, front);
      var prev := Scan(ordered, front);
      var s := adjusted[n];
      if s.Above(prev.0) {
        forall i | 0 <= i < n
          ensures !adjusted[i].Above(s) && adjusted[i] != s
        {
          assert adjusted[i] == front[i];
          AboveAfterNotAbove(adjusted[i], prev.0, s);
        }
        assert FirstAt(adjusted, n, s);
      } else if prev.0.Fin? {
        var j :| FirstAt(front, j, prev.0) && prev.1 == [ordered[j]] + NearIn(ordered, front, j + 1, n, prev.0);
        NearInPrefix(ordered, front, adjusted, j + 1, n, prev.0);
        assert FirstAt(adjusted, j, prev.0);
      }
    }
  }

  /** A move is in `NearIn` exactly when it is one of the moves from `lo` up to `hi`
      whose adjusted score is within 5.0 of `b`. */
  lemma {:induction false} NearInMeaning(ordered: seq<Move>, adjusted: seq<ExtReal>, lo: nat, hi: nat, b: ExtReal)
    requires lo <= hi <= |adjusted| <= |ordered|
    ensures forall m :: m in NearIn(ordered, adjusted, lo, hi, b) ==>
      exists i :: lo <= i < hi && ordered[i] == m && NearTie(adjusted[i], b)
    ensures forall i :: lo <= i < hi && NearTie(adjusted[i], b) ==> ordered[i] in NearIn(ordered, adjusted, lo, hi, b)
    decreases hi
  {
    if lo < hi {
      NearInMeaning(ordered, adjusted, lo, hi - 1, b);
    }
  }

  /** The near-tie window of the loop: every move on the final list has an adjusted score
      within 5.0 of the best; the list starts with the first move reaching the best; and
      every later move within 5.0 of the best is on it. */
  lemma ScanWindow(ordered: seq<Move>, adjusted: seq<ExtReal>)
    requires |adjusted| <= |ordered|
    ensures forall m :: m in Scan(ordered, adjusted).1 ==>
      exists i :: 0 <= i < |adjusted| && ordered[i] == m && NearTie(adjusted[i], Scan(ordered, adjusted).0)
    ensures Scan(ordered, adjusted).0.Fin? ==>
      exists j :: FirstAt(adjusted, j, Scan(ordered, adjusted).0) && Scan(ordered, adjusted).1[0] == ordered[j] &&
        forall i :: j < i < |adjusted| && NearTie(adjusted[i], Scan(ordered, adjusted).0) ==>
          ordered[i] in Scan(ordered, adjusted).1
  {
    ScanClosedForm(ordered, adjusted);
    var (b, ties) := Scan(ordered, adjusted);
    if b.Fin? {
      var j :| FirstAt(adjusted, j, b) && ties == [ordered[j]] + NearIn(ordered, adjusted, j + 1, |adjusted|, b);
      NearInMeaning(ordered, adjusted, j + 1, |adjusted|, b);
      forall m | m in ties
        ensures exists i :: 0 <= i < |adjusted| && ordered[i] == m && NearTie(adjusted[i], b)
      {
        if m == ordered[j] {
          assert NearTie(adjusted[j], b);
        } else {
          assert m in NearIn(ordered, adjusted, j + 1, |adjusted|, b);
        }
      }
    }
  }

  // ---------------------------------------------------------------------------
  // The search

  /** `search_best_move`. `score` is the node's value, `best` the chosen move, and the
      ghost `trace` records how the outcome came about. */
  method SearchBestMove(env: Env, g: Game, depth: nat, visited: set<StateKey>, recent: seq<RecentMove>)
    returns (score: ExtReal, best: Option<Move>, visitedOut: set<StateKey>, ghost trace: SearchTrace)
    ensures Searched(env, g, depth, visited, recent, trace)
    ensures score == trace.score && best == trace.best && visitedOut == trace.visitedOut
    ensures visited <= visitedOut
    ensures best.Some? ==> best.value in Candidates(g, depth, recent) && best.value in LegalMoves(g)
    // a key already visited ends the branch
    ensures SerializeState(g) in visited ==> score == NegInf && best == None && visitedOut == visited
    // a leaf is scored, and its key stays in `visited`
    ensures SerializeState(g) !in visited && (depth == 0 || |LegalMoves(g)| == 0) ==>
      score == Fin(Score(env.points, g)) && best == None && visitedOut == visited + {SerializeState(g)}
    // the foundation shortcut, which also leaves the key in `visited`
    ensures Expands(g, depth, visited) && Shortcut(g, depth, recent) ==>
      score == Fin(1000.0) && best.Some? && IsFoundationMove(best.value) &&
      visitedOut == visited + {SerializeState(g)}
    // an expanded node takes its key out again
    ensures Expands(g, depth, visited) && !Shortcut(g, depth, recent) ==> SerializeState(g) !in visitedOut
    decreases depth, 3
  {
    var key := SerializeState(g);
    if key in visited {
      trace := SearchTrace(NegInf, None, visited, [], [], []);
      return NegInf, None, visited, trace;
    }
    visitedOut := visited + {key};
    if depth == 0 {
      var s := ScoreState(env.points, g);
      trace := SearchTrace(Fin(s), None, visitedOut, [], [], []);
      return Fin(s), None, visitedOut, trace;
    }
    var legal := GetLegalMoves(g);
    if |legal| == 0 {
      var s := ScoreState(env.points, g);
      trace := SearchTrace(Fin(s), None, visitedOut, [], [], []);
      return Fin(s), None, visitedOut, trace;
    }
    score, best, visitedOut, trace := SearchMoves(env, g, depth, visitedOut, recent, legal);
  }

  /** The part of `search_best_move` after the leaf tests, for a node whose key is
      already in `visited`: the root filter, the foundation shortcut, the ordering, the
      loop over the children and the tie-break; the key is taken out of `visited` again
      unless the shortcut returns first. */
  method SearchMoves(env: Env, g: Game, depth: nat, visited: set<StateKey>, recent: seq<RecentMove>,
                     legalMoves: seq<Move>)
    returns (score: ExtReal, best: Option<Move>, visitedOut: set<StateKey>, ghost trace: SearchTrace)
    requires depth > 0 && legalMoves == LegalMoves(g) && |legalMoves| > 0
    requires SerializeState(g) in visited
    ensures Explored(env, g, depth, visited, recent, trace)
    ensures score == trace.score && best == trace.best && visitedOut == trace.visitedOut
    ensures visited - {SerializeState(g)} <= visitedOut
    ensures best.Some? ==> best.value in Candidates(g, depth, recent) && best.value in LegalMoves(g)
    ensures Shortcut(g, depth, recent) ==>
      score == Fin(1000.0) && best.Some? && IsFoundationMove(best.value) && visitedOut == visited
    ensures !Shortcut(g, depth, recent) ==> SerializeState(g) !in visitedOut
    decreases depth, 2
  {
    var legal := legalMoves;
    if |recent| > 0 && depth == 6 {
      legal := FilterRecentMoves(legal, recent);
    }
    assert legal == Candidates(g, depth, recent);
    var foundationMoves := Filter(legal, IsFoundation);
    if |foundationMoves| > 0 && depth == 6 {
      assert foundationMoves[0] in foundationMoves;
      var m :| m in foundationMoves;
      CandidatesAreLegal(g, depth, recent, m);
      trace := SearchTrace(Fin(1000.0), Some(m), visited, [], [], []);
      return Fin(1000.0), Some(m), visited, trace;
    }
    var ordered := OrderMoves(legal);
    OrderedInRange(g, depth, recent);
    var bestMoves;
    ghost var kids, adjusted;
    score, bestMoves, visitedOut, kids, adjusted := ExpandNode(env, g, depth - 1, visited, ordered);
    best := ChooseAmongTies(bestMoves);
    if best.Some? {
      OrderedAreCandidates(g, depth, recent, best.value);
    }
    visitedOut := visitedOut - {SerializeState(g)};
    trace := SearchTrace(score, best, visitedOut, kids, adjusted, bestMoves);
    ExploredByLoop(env, g, depth, visited, recent, trace);
  }

  /** The outcome of the loop and the tie-break is an outcome of the expanded node. */
  lemma ExploredByLoop(env: Env, g: Game, depth: nat, base: set<StateKey>, recent: seq<RecentMove>,
                       t: SearchTrace)
    requires depth > 0 && !Shortcut(g, depth, recent)
    requires |t.kids| == |OrderMoves(Candidates(g, depth, recent))|
    requires KidsSearched(env, g, depth - 1, base, OrderMoves(Candidates(g, depth, recent)), t.kids, t.adjusted)
    requires (t.score, t.ties) == Scan(OrderMoves(Candidates(g, depth, recent)), t.adjusted)
    requires TieBreak(t.ties, t.best)
    requires t.visitedOut == Before(base, t.kids, |t.kids|) - {SerializeState(g)}
    ensures Explored(env, g, depth, base, recent, t)
  {
  }

  lemma OrderedAreCandidates(g: Game, depth: nat, recent: seq<RecentMove>, m: Move)
    requires m in OrderMoves(Candidates(g, depth, recent))
    ensures m in Candidates(g, depth, recent) && m in LegalMoves(g) && MoveInRange(g, m)
  {
    OrderMovesPermutes(Candidates(g, depth, recent));
    assert m in multiset(OrderMoves(Candidates(g, depth, recent)));
    CandidatesAreLegal(g, depth, recent, m);
  }

  lemma OrderedInRange(g: Game, depth: nat, recent: seq<RecentMove>)
    ensures forall m :: m in OrderMoves(Candidates(g, depth, recent)) ==> MoveInRange(g, m)
  {
    forall m | m in OrderMoves(Candidates(g, depth, recent))
      ensures MoveInRange(g, m)
    {
      OrderedAreCandidates(g, depth, recent, m);
    }
  }

  /** The loop over the ordered moves: each child is searched at depth `sub`, one level
      deeper, with the shared `visited` set, a foundation move earns 1000, noise in
      [0, 1) is added, a strictly higher score restarts the tie list and a near-tie
      joins it. */
  method ExpandNode(env: Env, g: Game, sub: nat, visited: set<StateKey>, ordered: seq<Move>)
    returns (bestScore: ExtReal, bestMoves: seq<Move>, visitedOut: set<StateKey>,
             ghost kids: seq<SearchTrace>, ghost adjusted: seq<ExtReal>)
    requires forall m :: m in ordered ==> MoveInRange(g, m)
    ensures visited <= visitedOut
    ensures |kids| == |ordered| && KidsSearched(env, g, sub, visited, ordered, kids, adjusted)
    ensures visitedOut == Before(visited, kids, |kids|)
    ensures (bestScore, bestMoves) == Scan(ordered, adjusted)
    decreases sub + 1, 1
  {
    bestScore := NegInf;
    bestMoves := [];
    visitedOut := visited;
    kids, adjusted := [], [];
    var k := 0;
    while k < |ordered|
      invariant 0 <= k <= |ordered| && |kids| == k
      invariant visited <= visitedOut
      invariant KidsSearched(env, g, sub, visited, ordered, kids, adjusted)
      invariant visitedOut == Before(visited, kids, k)
      invariant (bestScore, bestMoves) == Scan(ordered, adjusted)
    {
      var move := ordered[k];
      var s;
      ghost var kid;
      s, visitedOut, kid := ChildScore(env, g, sub, visitedOut, move);
      assert (adjusted + [s])[..k] == adjusted;
      if s.Above(bestScore) {
        bestScore := s;
        bestMoves := [move];
      } else if NearTie(s, bestScore) {
        bestMoves := bestMoves + [move];
      }
      KidsSearchedSnoc(env, g, sub, visited, ordered, kids, adjusted, kid, s);
      kids, adjusted := kids + [kid], adjusted + [s];
      k := k + 1;
    }
  }

  /** The foundation bonus the loop adds to a child's score. */
  function Bonus(move: Move): (b: real)
    ensures b == 0.0 || (b == 1000.0 && IsFoundationMove(move))
    ensures IsFoundationMove(move) ==> b == 1000.0
  {
    if IsFoundationMove(move) then 1000.0 else 0.0
  }

  /** `s` is the searched score `child` of a move's position as the loop adjusts it: a
      dead branch stays at negative infinity, and a live one gains the foundation bonus
      and then noise in [0, 1). */
  predicate Adjusts(move: Move, child: ExtReal, s: ExtReal) {
    (s.NegInf? <==> child.NegInf?) &&
    (child.Fin? && s.Fin? ==> Bonus(move) + child.r <= s.r < Bonus(move) + child.r + 1.0)
  }

  /** One child of the loop: the move is applied, the new position searched at depth
      `sub` with the shared `visited` set and no history, 1000 added for a foundation
      move and then noise in [0, 1). `kid` records the child's search. */
  method ChildScore(env: Env, g: Game, sub: nat, visited: set<StateKey>, move: Move)
    returns (s: ExtReal, visitedOut: set<StateKey>, ghost kid: SearchTrace)
    requires MoveInRange(g, move)
    ensures Searched(env, ApplyMove(env, g, move), sub, visited, [], kid)
    ensures visitedOut == kid.visitedOut && visited <= visitedOut
    ensures Adjusts(move, kid.score, s)
    // a position already visited is a dead branch
    ensures SerializeState(ApplyMove(env, g, move)) in visited ==> s == NegInf
    decreases sub + 1, 0
  {
    var newGame := ApplyMove(env, g, move);
    var childScore, childMove, v;
    childScore, childMove, v, kid := SearchBestMove(env, newGame, sub, visited, []);
    visitedOut := v;
    s := childScore;
    if IsFoundationMove(move) {
      s := s.Plus(1000.0);
    }
    var noise: real :| 0.0 <= noise < 1.0;
    s := s.Plus(noise);
  }

  /** An expanded node's outcome, stated without the loop: its score is the highest
      adjusted child score (negative infinity when every child is a dead branch); the
      near-tie list starts with the first move reaching it and holds exactly the later
      moves within 5.0 of it; and the move is picked from that list by the tie-break. */
  lemma ExpandedChoice(env: Env, g: Game, depth: nat, visited: set<StateKey>, recent: seq<RecentMove>,
                       t: SearchTrace)
    requires Searched(env, g, depth, visited, recent, t)
    requires Expands(g, depth, visited) && !Shortcut(g, depth, recent)
    ensures |t.kids| == |t.adjusted| == |OrderMoves(Candidates(g, depth, recent))|
    ensures forall k :: 0 <= k < |t.adjusted| ==>
      Adjusts(OrderMoves(Candidates(g, depth, recent))[k], t.kids[k].score, t.adjusted[k])
    ensures forall k :: 0 <= k < |t.adjusted| ==> !t.adjusted[k].Above(t.score)
    ensures t.best.None? <==> t.score == NegInf
    ensures t.score.Fin? ==>
      exists j :: FirstAt(t.adjusted, j, t.score) &&
        t.ties == [OrderMoves(Candidates(g, depth, recent))[j]] +
          NearIn(OrderMoves(Candidates(g, depth, recent)), t.adjusted, j + 1, |t.adjusted|, t.score)
    ensures forall m :: m in t.ties ==>
      exists i :: 0 <= i < |t.adjusted| && OrderMoves(Candidates(g, depth, recent))[i] == m &&
        NearTie(t.adjusted[i], t.score)
    ensures t.score.Fin? ==>
      exists j :: FirstAt(t.adjusted, j, t.score) && t.ties[0] == OrderMoves(Candidates(g, depth, recent))[j] &&
        forall i :: j < i < |t.adjusted| && NearTie(t.adjusted[i], t.score) ==>
          OrderMoves(Candidates(g, depth, recent))[i] in t.ties
    ensures TieBreak(t.ties, t.best)
  {
    var ordered := OrderMoves(Candidates(g, depth, recent));
    assert Explored(env, g, depth, visited + {SerializeState(g)}, recent, t);
    var base := visited + {SerializeState(g)};
    forall k | 0 <= k < |t.adjusted|
      ensures Adjusts(ordered[k], t.kids[k].score, t.adjusted[k])
    {
      KidsSearchedAt(env, g, depth - 1, base, ordered, t.kids, t.adjusted, k);
    }
    ScanClosedForm(ordered, t.adjusted);
    ScanWindow(ordered, t.adjusted);
  }

  /** What the choice among the final near-ties promises. */
  predicate TieBreak(ties: seq<Move>, best: Option<Move>) {
    (|ties| == 0 ==> best == None) &&
    (|ties| == 1 ==> best == Some(ties[0])) &&
    (|ties| > 0 ==> best.Some? && best.value in ties) &&
    (|ties| > 1 && (exists m :: m in ties && IsFoundationMove(m)) ==> IsFoundationMove(best.value)) &&
    ((|ties| > 1 && (forall m :: m in ties ==> !IsFoundationMove(m)) &&
      (exists m :: m in ties && !IsStockMove(m))) ==> !IsStockMove(best.value))
  }

  /** The tie-break: among several near-ties a foundation move if there is one, else a
      move other than `draw_stock`/`reset_stock` if there is one, else any of them. */
  method ChooseAmongTies(ties: seq<Move>) returns (best: Option<Move>)
    ensures TieBreak(ties, best)
  {
    if |ties| > 1 {
      var foundationTies := Filter(ties, IsFoundation);
      if |foundationTies| > 0 {
        assert foundationTies[0] in foundationTies;
        var m :| m in foundationTies;
        best := Some(m);
      } else {
        var nonDraw := Filter(ties, m => !IsStockMove(m));
        if |nonDraw| > 0 {
          assert nonDraw[0] in nonDraw;
          var m :| m in nonDraw;
          best := Some(m);
        } else {
          assert ties[0] in ties;
          var m :| m in ties;
          best := Some(m);
        }
      }
    } else {
      best := if |ties| > 0 then Some(ties[0]) else None;
    }
  }

  /** `find_best_move`: the search from an empty `visited` set, described as text. The
      ghost `trace` is the search's outcome. */
  method FindBestMove(env: Env, g: Game, depth: nat, recent: seq<RecentMove>)
    returns (text: string, ghost trace: SearchTrace)
    ensures Searched(env, g, depth, {}, recent, trace) && text == DescribeMove(trace.best)
    ensures depth == 0 || |LegalMoves(g)| == 0 ==> text == "No move found"
    ensures text == "No move found" || exists m :: m in LegalMoves(g) && text == DescribeMove(Some(m))
    // at the root, a foundation move among the candidates is taken at once
    ensures depth == 6 && |LegalMoves(g)| > 0 && Shortcut(g, depth, recent) ==>
      trace.score == Fin(1000.0) && trace.best.Some? && IsFoundationMove(trace.best.value) &&
      trace.best.value in LegalMoves(g)
  {
    var score, move, visitedOut;
    score, move, visitedOut, trace := SearchBestMove(env, g, depth, {}, recent);
    text := DescribeMove(move);
  }
}

/** What the breadth-first search of game_logic/best_move_graph.py keeps: how each
    queued and scored position was reached, the keys visited, the best so far, and the
    level order that makes the loop end. The queue is a sequence that loses its front
    and grows at its back; the ghost `paths` and `scored` record, beside it, how each
    position was reached and every position scored so far. */
module GraphInvariant {
  import opened Wrappers
  import opened Cards
  import opened GameState
  import opened Serialize
  import opened Scoring
  import opened Moves
  import opened MoveGeneration

  /** A queue entry `(game, depth, first_move)`. */
  datatype Entry = Entry(game: Game, depth: nat, first: Option<Move>)

  /** The position reached from `g` by playing `path`, when each move is one that
      `get_legal_moves` offers where it is played. */
  function Play(env: Env, g: Game, path: seq<Move>): (r: Option<Game>)
    ensures |path| > 0 && r.Some? ==> IsLegal(g, path[0])
    decreases |path|
  {
    if |path| == 0 then Some(g)
    else
      var front, m := path[..|path| - 1], path[|path| - 1];
      match Play(env, g, front)
      case None => None
      case Some(h) =>
        if IsLegal(h, m) then
          LegalIsInRange(h, m);
          Some(ApplyMove(env, h, m))
        else None
  }

  /** Playing one more offered move extends a play. */
  lemma PlayExtend(env: Env, g: Game, path: seq<Move>, h: Game, m: Move)
    requires Play(env, g, path) == Some(h) && IsLegal(h, m)
    ensures MoveInRange(h, m) && Play(env, g, path + [m]) == Some(ApplyMove(env, h, m))
  {
    LegalIsInRange(h, m);
    assert (path + [m])[..|path|] == path;
  }

  // ---------------------------------------------------------------------------
  // What the loop keeps

  /** A queue entry holds the position `path` reaches, at depth `|path|`, no deeper
      than one past the limit, and remembers the path's first move. */
  predicate EntryOk(env: Env, root: Game, maxDepth: nat, e: Entry, path: seq<Move>) {
    e.depth <= maxDepth + 1 && |path| == e.depth && Play(env, root, path) == Some(e.game) &&
    (e.depth == 0 ==> e.first.None?) && (e.depth > 0 ==> e.first == Some(path[0]))
  }

  predicate QueueOk(env: Env, root: Game, maxDepth: nat, queue: seq<Entry>, paths: seq<seq<Move>>) {
    |queue| == |paths| &&
    forall i :: 0 <= i < |queue| ==> EntryOk(env, root, maxDepth, queue[i], paths[i])
  }

  /** Breadth-first order: depths never decrease along the queue and span one level. */
  predicate LevelOrder(queue: seq<Entry>) {
    (forall i, j :: 0 <= i < j < |queue| ==> queue[i].depth <= queue[j].depth) &&
    (forall i :: 0 <= i < |queue| ==> queue[i].depth <= queue[0].depth + 1)
  }

  /** A position that was scored: its key, its score, the root move it descends from
      and the play that reached it. */
  datatype Scored = Scored(key: StateKey, score: real, first: Move, path: seq<Move>)

  /** The play is one to `maxDepth + 1` offered moves long, starts with `first`, and
      reaches a position whose key and score are recorded. */
  predicate ScoredOk(env: Env, root: Game, maxDepth: nat, s: Scored) {
    1 <= |s.path| <= maxDepth + 1 && s.first == s.path[0] &&
    Play(env, root, s.path).Some? &&
    s.key == SerializeState(Play(env, root, s.path).value) &&
    s.score == Score(env.points, Play(env, root, s.path).value)
  }

  predicate AllScoredOk(env: Env, root: Game, maxDepth: nat, scored: seq<Scored>) {
    forall i :: 0 <= i < |scored| ==> ScoredOk(env, root, maxDepth, scored[i])
  }

  /** The keys of the scored positions. */
  function KeySet(scored: seq<Scored>): (r: set<StateKey>)
    ensures forall i :: 0 <= i < |scored| ==> scored[i].key in r
    ensures |scored| == 0 ==> r == {}
    decreases |scored|
  {
    if |scored| == 0 then {} else KeySet(scored[..|scored| - 1]) + {scored[|scored| - 1].key}
  }

  /** A key of `KeySet` is the key of a scored position. */
  lemma {:induction false} KeySetMembers(scored: seq<Scored>, k: StateKey)
    requires k in KeySet(scored)
    ensures exists i :: 0 <= i < |scored| && scored[i].key == k
    decreases |scored|
  {
    var n := |scored| - 1;
    if k != scored[n].key {
      KeySetMembers(scored[..n], k);
      var i :| 0 <= i < n && scored[..n][i].key == k;
      assert scored[i].key == k;
    }
  }

  /** `visited` is the root's key and the keys scored, and no key was scored twice or
      equals the root's. */
  predicate KeysOk(root: Game, scored: seq<Scored>, visited: set<StateKey>) {
    visited == {SerializeState(root)} + KeySet(scored) &&
    (forall i :: 0 <= i < |scored| ==> scored[i].key != SerializeState(root)) &&
    (forall i, j :: 0 <= i < j < |scored| ==> scored[i].key != scored[j].key)
  }

  /** `best_move`/`best_score` come from the earliest scored position of highest score. */
  predicate BestOk(scored: seq<Scored>, best: Option<Move>, bestScore: ExtReal, bestIdx: nat) {
    (best.None? <==> |scored| == 0) &&
    (bestScore.NegInf? <==> |scored| == 0) &&
    (forall i :: 0 <= i < |scored| ==> !Fin(scored[i].score).Above(bestScore)) &&
    (|scored| > 0 ==>
       bestIdx < |scored| && best == Some(scored[bestIdx].first) &&
       bestScore == Fin(scored[bestIdx].score) &&
       forall j :: 0 <= j < bestIdx ==> scored[j].score < scored[bestIdx].score)
  }

  /** `m` is offered at the root and leads to a position with a key of its own. */
  predicate NewRootChild(env: Env, root: Game, m: Move) {
    m in LegalMoves(root) && MoveInRange(root, m) &&
    SerializeState(ApplyMove(env, root, m)) != SerializeState(root)
  }

  /** Some move offered at the root leads to a position with a key of its own. */
  ghost predicate RootHasNewChild(env: Env, root: Game) {
    exists m :: NewRootChild(env, root, m)
  }

  /** The position every move offered at the root leads to has its key visited. */
  predicate RootChildrenVisited(env: Env, root: Game, visited: set<StateKey>) {
    forall m :: m in LegalMoves(root) && MoveInRange(root, m) ==> SerializeState(ApplyMove(env, root, m)) in visited
  }

  /** Visiting more keys keeps the root's children visited. */
  lemma RootChildrenStayVisited(env: Env, root: Game, visited: set<StateKey>, visited2: set<StateKey>)
    requires RootChildrenVisited(env, root, visited) && visited <= visited2
    ensures RootChildrenVisited(env, root, visited2)
  {
  }

  /** Every move offered at the root that leads to a key other than the root's leads to
      a scored position. */
  ghost predicate RootChildrenScored(env: Env, root: Game, scored: seq<Scored>) {
    forall m :: NewRootChild(env, root, m) ==> SerializeState(ApplyMove(env, root, m)) in KeySet(scored)
  }

  /** With `visited` the root's key and the scored keys, visiting every root child means
      scoring every root child with a key of its own. */
  lemma VisitedRootChildrenScored(env: Env, root: Game, scored: seq<Scored>, visited: set<StateKey>)
    requires KeysOk(root, scored, visited) && RootChildrenVisited(env, root, visited)
    ensures RootChildrenScored(env, root, scored)
    ensures RootHasNewChild(env, root) ==> |scored| > 0
  {
    if RootHasNewChild(env, root) {
      var m :| NewRootChild(env, root, m);
      assert SerializeState(ApplyMove(env, root, m)) in KeySet(scored);
    }
  }

  /** A move `get_legal_moves` offers is legal, and so in range. */
  lemma OfferedInRange(g: Game, m: Move)
    requires m in LegalMoves(g)
    ensures IsLegal(g, m) && MoveInRange(g, m)
  {
    LegalMovesExactly(g, m);
    LegalIsInRange(g, m);
  }

  /** `key` is the key of the position move `m` leads to from `g`. */
  predicate KeyOf(env: Env, g: Game, m: Move, key: StateKey) {
    MoveInRange(g, m) && key == SerializeState(ApplyMove(env, g, m))
  }

  /** `keys` are the keys of the positions `moves` lead to from `g`, and all are visited. */
  predicate KeysSeen(env: Env, g: Game, moves: seq<Move>, keys: seq<StateKey>, visited: set<StateKey>) {
    |keys| == |moves| &&
    (forall j :: 0 <= j < |keys| ==> KeyOf(env, g, moves[j], keys[j])) &&
    (forall j :: 0 <= j < |keys| ==> keys[j] in visited)
  }

  /** Visiting the key of the next move keeps the keys seen in step with the moves. */
  lemma KeysSeenStep(env: Env, g: Game, moves: seq<Move>, k: nat, keys: seq<StateKey>, key: StateKey,
                     visited: set<StateKey>, visited2: set<StateKey>)
    requires k < |moves| && KeysSeen(env, g, moves[..k], keys, visited)
    requires KeyOf(env, g, moves[k], key) && visited <= visited2 && key in visited2
    ensures KeysSeen(env, g, moves[..k + 1], keys + [key], visited2)
  {
    var keys2 := keys + [key];
    forall j | 0 <= j < |keys2|
      ensures KeyOf(env, g, moves[..k + 1][j], keys2[j]) && keys2[j] in visited2
    {
      if j < k {
        assert KeyOf(env, g, moves[..k][j], keys[j]);
      }
    }
  }

  // ---------------------------------------------------------------------------
  // Termination: the front level rises, or the front level shrinks

  /** How many entries are at depth `d`. */
  function CountAt(queue: seq<Entry>, d: nat): (n: nat)
    ensures n <= |queue|
    decreases |queue|
  {
    if |queue| == 0 then 0 else (if queue[0].depth == d then 1 else 0) + CountAt(queue[1..], d)
  }

  lemma {:induction false} CountAtAppend(a: seq<Entry>, b: seq<Entry>, d: nat)
    ensures CountAt(a + b, d) == CountAt(a, d) + CountAt(b, d)
    decreases |a|
  {
    if |a| > 0 {
      assert (a + b)[1..] == a[1..] + b;
      CountAtAppend(a[1..], b, d);
    } else {
      assert a + b == b;
    }
  }

  lemma {:induction false} CountAtAbsent(b: seq<Entry>, d: nat)
    requires forall i :: 0 <= i < |b| ==> b[i].depth != d
    ensures CountAt(b, d) == 0
    decreases |b|
  {
    if |b| > 0 {
      CountAtAbsent(b[1..], d);
    }
  }

  /** Levels still to go below the front entry. */
  function Height(queue: seq<Entry>, maxDepth: nat): int {
    if |queue| == 0 then 0 else maxDepth + 2 - queue[0].depth
  }

  function FrontCount(queue: seq<Entry>): nat {
    if |queue| == 0 then 0 else CountAt(queue, queue[0].depth)
  }

  /** Dropping the front entry and queueing entries one level deeper keeps the order
      and makes progress: the front level rises, or fewer entries are left on it. */
  lemma LevelStep(queue: seq<Entry>, next: seq<Entry>, maxDepth: nat)
    requires |queue| > 0 && LevelOrder(queue)
    requires forall i :: 0 <= i < |queue| ==> queue[i].depth <= maxDepth + 1
    requires |queue| - 1 <= |next| && forall i :: 0 <= i < |queue| - 1 ==> next[i] == queue[i + 1]
    requires forall i :: |queue| - 1 <= i < |next| ==> next[i].depth == queue[0].depth + 1
    ensures LevelOrder(next)
    ensures 0 <= Height(next, maxDepth) < Height(queue, maxDepth) ||
      (Height(next, maxDepth) == Height(queue, maxDepth) && FrontCount(next) < FrontCount(queue))
  {
    var d := queue[0].depth;
    var rest := queue[1..];
    var children := next[|rest|..];
    assert next == rest + children;
    forall i, j | 0 <= i < j < |next|
      ensures next[i].depth <= next[j].depth
    {
      if i < |rest| {
        assert next[i] == queue[i + 1];
      }
      if j < |rest| {
        assert next[j] == queue[j + 1];
      }
    }
    if |next| > 0 && next[0].depth == d {
      assert |rest| > 0 && next[0] == rest[0];
      CountAtAppend(rest, children, d);
      CountAtAbsent(children, d);
    }
  }

  // ---------------------------------------------------------------------------
  // The search

  /** The search's variables: the queue, `visited`, `best_move` and `best_score`. */
  datatype Search = Search(queue: seq<Entry>, visited: set<StateKey>, best: Option<Move>, bestScore: ExtReal)

  /** Kept beside them: the play that reached each queue entry, every position scored
      so far, and which of those decided the best. */
  datatype Trace = Trace(paths: seq<seq<Move>>, scored: seq<Scored>, bestIdx: nat)

  predicate Inv(env: Env, root: Game, maxDepth: nat, st: Search, tr: Trace) {
    QueueOk(env, root, maxDepth, st.queue, tr.paths) &&
    KeysOk(root, tr.scored, st.visited) && AllScoredOk(env, root, maxDepth, tr.scored) &&
    BestOk(tr.scored, st.best, st.bestScore, tr.bestIdx)
  }

  /** `st2` keeps what `st` queued, visited and scored, and everything it queued since
      is at depth `d`. */
  predicate Extends(st: Search, tr: Trace, st2: Search, tr2: Trace, d: nat) {
    |st.queue| <= |st2.queue| && (forall i :: 0 <= i < |st.queue| ==> st2.queue[i] == st.queue[i]) &&
    (forall i :: |st.queue| <= i < |st2.queue| ==> st2.queue[i].depth == d) &&
    |tr.scored| <= |tr2.scored| && (forall i :: 0 <= i < |tr.scored| ==> tr2.scored[i] == tr.scored[i]) &&
    st.visited <= st2.visited
  }

  /** The search starts with the root queued at depth 0, its key visited, nothing scored. */
  lemma InitOk(env: Env, root: Game, maxDepth: nat)
    ensures Inv(env, root, maxDepth, Search([Entry(root, 0, None)], {SerializeState(root)}, None, NegInf), Trace([[]], [], 0))
    ensures LevelOrder([Entry(root, 0, None)])
  {
  }

  /** Taking the front entry off the queue: it is well-formed, what remains keeps the
      invariant, and every queued entry is at most one level past the limit. */
  lemma PopOk(env: Env, root: Game, maxDepth: nat, st: Search, tr: Trace)
    requires Inv(env, root, maxDepth, st, tr) && |st.queue| > 0
    ensures EntryOk(env, root, maxDepth, st.queue[0], tr.paths[0])
    ensures Inv(env, root, maxDepth, st.(queue := st.queue[1..]), tr.(paths := tr.paths[1..]))
    ensures forall i :: 0 <= i < |st.queue| ==> st.queue[i].depth <= maxDepth + 1
  {
    assert EntryOk(env, root, maxDepth, st.queue[0], tr.paths[0]);
    forall i | 0 <= i < |st.queue| - 1
      ensures EntryOk(env, root, maxDepth, st.queue[1..][i], tr.paths[1..][i])
    {
      assert EntryOk(env, root, maxDepth, st.queue[i + 1], tr.paths[i + 1]);
    }
    forall i | 0 <= i < |st.queue|
      ensures st.queue[i].depth <= maxDepth + 1
    {
      assert EntryOk(env, root, maxDepth, st.queue[i], tr.paths[i]);
    }
  }

  /** Queueing one entry at depth `d`, visiting a key and scoring a position extends. */
  lemma ExtendsBySnoc(st: Search, tr: Trace, entry: Entry, key: StateKey, best: Option<Move>, bestScore: ExtReal,
                      path: seq<Move>, s: Scored, bestIdx: nat)
    ensures Extends(st, tr, Search(st.queue + [entry], st.visited + {key}, best, bestScore),
                    Trace(tr.paths + [path], tr.scored + [s], bestIdx), entry.depth)
  {
  }

  lemma ExtendsTrans(st1: Search, tr1: Trace, st2: Search, tr2: Trace, st3: Search, tr3: Trace, d: nat)
    requires Extends(st1, tr1, st2, tr2, d) && Extends(st2, tr2, st3, tr3, d)
    ensures Extends(st1, tr1, st3, tr3, d)
  {
  }

  /** Recording a child with a new key: queued one level deeper, visited, scored, and
      the best updated on a strictly higher score, keeps the invariant. */
  lemma RecordOk(env: Env, root: Game, maxDepth: nat, e: Entry, path: seq<Move>, move: Move,
                 st: Search, tr: Trace, moveToUse: Move, newGame: Game, key: StateKey, score: real,
                 best: Option<Move>, bestScore: ExtReal, bestIdx: nat)
    requires e.depth <= maxDepth && EntryOk(env, root, maxDepth, e, path) && move in LegalMoves(e.game)
    requires Inv(env, root, maxDepth, st, tr)
    requires moveToUse == if e.first.Some? then e.first.value else move
    requires MoveInRange(e.game, move) && newGame == ApplyMove(env, e.game, move)
    requires key == SerializeState(newGame) && key !in st.visited && score == Score(env.points, newGame)
    requires Fin(score).Above(st.bestScore) ==>
      best == Some(moveToUse) && bestScore == Fin(score) && bestIdx == |tr.scored|
    requires !Fin(score).Above(st.bestScore) ==>
      best == st.best && bestScore == st.bestScore && bestIdx == tr.bestIdx
    ensures Inv(env, root, maxDepth,
                Search(st.queue + [Entry(newGame, e.depth + 1, Some(moveToUse))], st.visited + {key}, best, bestScore),
                Trace(tr.paths + [path + [move]], tr.scored + [Scored(key, score, moveToUse, path + [move])], bestIdx))
  {
    var entry := Scored(key, score, moveToUse, path + [move]);
    OfferedInRange(e.game, move);
    BestStep(tr.scored, st.best, st.bestScore, tr.bestIdx, entry, best, bestScore, bestIdx);
    NewKey(root, tr.scored, entry, st.visited);
    Grow(env, root, maxDepth, e, path, move, moveToUse, st.queue, tr.paths, tr.scored);
  }

  /** The child reached by an offered move is a well-formed entry one level deeper,
      and its position is a well-formed scored position. */
  lemma ChildOk(env: Env, root: Game, maxDepth: nat, e: Entry, path: seq<Move>, move: Move, moveToUse: Move)
    requires e.depth <= maxDepth && EntryOk(env, root, maxDepth, e, path) && IsLegal(e.game, move)
    requires moveToUse == if e.first.Some? then e.first.value else move
    ensures MoveInRange(e.game, move)
    ensures var h := ApplyMove(env, e.game, move);
      EntryOk(env, root, maxDepth, Entry(h, e.depth + 1, Some(moveToUse)), path + [move]) &&
      ScoredOk(env, root, maxDepth, Scored(SerializeState(h), Score(env.points, h), moveToUse, path + [move]))
  {
    PlayExtend(env, root, path, e.game, move);
  }

  /** Queueing and recording the child keeps both records well-formed. */
  lemma Grow(env: Env, root: Game, maxDepth: nat, e: Entry, path: seq<Move>, move: Move, moveToUse: Move,
             queue: seq<Entry>, paths: seq<seq<Move>>, scored: seq<Scored>)
    requires e.depth <= maxDepth && EntryOk(env, root, maxDepth, e, path) && IsLegal(e.game, move)
    requires moveToUse == if e.first.Some? then e.first.value else move
    requires QueueOk(env, root, maxDepth, queue, paths) && AllScoredOk(env, root, maxDepth, scored)
    ensures MoveInRange(e.game, move)
    ensures var h := ApplyMove(env, e.game, move);
      QueueOk(env, root, maxDepth, queue + [Entry(h, e.depth + 1, Some(moveToUse))], paths + [path + [move]]) &&
      AllScoredOk(env, root, maxDepth, scored + [Scored(SerializeState(h), Score(env.points, h), moveToUse, path + [move])])
  {
    ChildOk(env, root, maxDepth, e, path, move, moveToUse);
    var h := ApplyMove(env, e.game, move);
    QueueSnoc(env, root, maxDepth, queue, paths, Entry(h, e.depth + 1, Some(moveToUse)), path + [move]);
    ScoredSnoc(env, root, maxDepth, scored, Scored(SerializeState(h), Score(env.points, h), moveToUse, path + [move]));
  }

  lemma QueueSnoc(env: Env, root: Game, maxDepth: nat, queue: seq<Entry>, paths: seq<seq<Move>>,
                  e: Entry, path: seq<Move>)
    requires QueueOk(env, root, maxDepth, queue, paths) && EntryOk(env, root, maxDepth, e, path)
    ensures QueueOk(env, root, maxDepth, queue + [e], paths + [path])
  {
  }

  lemma ScoredSnoc(env: Env, root: Game, maxDepth: nat, scored: seq<Scored>, s: Scored)
    requires AllScoredOk(env, root, maxDepth, scored) && ScoredOk(env, root, maxDepth, s)
    ensures AllScoredOk(env, root, maxDepth, scored + [s])
  {
  }

  /** A strictly higher score takes over the best; any other score leaves it. */
  lemma BestStep(scored: seq<Scored>, best: Option<Move>, bestScore: ExtReal, bestIdx: nat, s: Scored,
                 bestOut: Option<Move>, bestScoreOut: ExtReal, bestIdxOut: nat)
    requires BestOk(scored, best, bestScore, bestIdx)
    requires Fin(s.score).Above(bestScore) ==>
      bestOut == Some(s.first) && bestScoreOut == Fin(s.score) && bestIdxOut == |scored|
    requires !Fin(s.score).Above(bestScore) ==>
      bestOut == best && bestScoreOut == bestScore && bestIdxOut == bestIdx
    ensures BestOk(scored + [s], bestOut, bestScoreOut, bestIdxOut)
  {
    var t := scored + [s];
    if Fin(s.score).Above(bestScore) {
      forall i | 0 <= i < |t|
        ensures !Fin(t[i].score).Above(bestScoreOut)
      {
        if i < |scored| {
          AboveAfterNotAbove(Fin(scored[i].score), bestScore, Fin(s.score));
        }
      }
      forall j | 0 <= j < |scored|
        ensures t[j].score < s.score
      {
        AboveAfterNotAbove(Fin(scored[j].score), bestScore, Fin(s.score));
      }
    } else if |scored| > 0 {
      assert t[bestIdx] == scored[bestIdx];
    }
  }

  /** Recording a key not yet visited keeps `visited` equal to the root's key and the
      scored keys, all distinct. */
  lemma NewKey(root: Game, scored: seq<Scored>, entry: Scored, visited: set<StateKey>)
    requires KeysOk(root, scored, visited) && entry.key !in visited
    ensures KeysOk(root, scored + [entry], visited + {entry.key})
  {
    var s := scored + [entry];
    assert s[..|scored|] == scored;
  }

  /** Once the root is expanded, the position of every root move is visited, and the
      one of every root move to a key of its own has been scored. */
  lemma RootExpanded(env: Env, root: Game, scored: seq<Scored>, visited: set<StateKey>, childKeys: seq<StateKey>)
    requires KeysOk(root, scored, visited) && KeysSeen(env, root, LegalMoves(root), childKeys, visited)
    ensures RootChildrenVisited(env, root, visited)
    ensures RootChildrenScored(env, root, scored)
  {
    forall m | m in LegalMoves(root) && MoveInRange(root, m)
      ensures SerializeState(ApplyMove(env, root, m)) in visited
    {
      var j :| 0 <= j < |LegalMoves(root)| && LegalMoves(root)[j] == m;
      assert KeyOf(env, root, m, childKeys[j]) && childKeys[j] in visited;
    }
    VisitedRootChildrenScored(env, root, scored, visited);
  }

}

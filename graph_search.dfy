/** The breadth-first search of game_logic/best_move_graph.py. Its copies of
    `_is_valid_sequence`, `get_legal_moves` and `describe_move` are the same code as in
    best_move_tree.py and are the members of `MoveGeneration`. */
module GraphSearch {
  import opened Wrappers
  import opened GameState
  import opened Serialize
  import opened Scoring
  import opened Moves
  import opened MoveGeneration
  import opened GraphInvariant

  /** The body of the inner loop for one offered move: a child whose key is new is
      marked visited, scored, may become the best, and is queued one level deeper with
      the root move it descends from; a child already visited is skipped. */
  method VisitChild(env: Env, root: Game, maxDepth: nat, e: Entry, ghost path: seq<Move>, move: Move,
                    st: Search, ghost tr: Trace)
    returns (st2: Search, ghost tr2: Trace, stateKey: StateKey)
    requires e.depth <= maxDepth && EntryOk(env, root, maxDepth, e, path) && move in LegalMoves(e.game)
    requires Inv(env, root, maxDepth, st, tr)
    ensures Inv(env, root, maxDepth, st2, tr2) && Extends(st, tr, st2, tr2, e.depth + 1)
    ensures KeyOf(env, e.game, move, stateKey)
    ensures stateKey in st2.visited
  {
    st2, tr2 := st, tr;
    var moveToUse := if e.first.Some? then e.first.value else move;
    OfferedInRange(e.game, move);
    var newGame := ApplyMove(env, e.game, move);
    stateKey := SerializeState(newGame);
    if stateKey in st.visited {
      return;
    }
    var score := ScoreState(env.points, newGame);
    var best, bestScore := st.best, st.bestScore;
    ghost var bestIdx := tr.bestIdx;
    if Fin(score).Above(bestScore) {
      bestScore := Fin(score);
      best := Some(moveToUse);
      bestIdx := |tr.scored|;
    }
    RecordOk(env, root, maxDepth, e, path, move, st, tr, moveToUse, newGame, stateKey, score, best, bestScore, bestIdx);
    ExtendsBySnoc(st, tr, Entry(newGame, e.depth + 1, Some(moveToUse)), stateKey, best, bestScore,
                  path + [move], Scored(stateKey, score, moveToUse, path + [move]), bestIdx);
    st2 := Search(st.queue + [Entry(newGame, e.depth + 1, Some(moveToUse))], st.visited + {stateKey}, best, bestScore);
    tr2 := Trace(tr.paths + [path + [move]], tr.scored + [Scored(stateKey, score, moveToUse, path + [move])], bestIdx);
  }

  /** The inner loop of `find_best_move_graph` over the moves offered at one entry. The
      ghost `childKeys` are the keys of the positions those moves lead to; all end up
      visited. */
  method ExpandEntry(env: Env, root: Game, maxDepth: nat, e: Entry, ghost path: seq<Move>, legal: seq<Move>,
                     st: Search, ghost tr: Trace)
    returns (st2: Search, ghost tr2: Trace, ghost childKeys: seq<StateKey>)
    requires e.depth <= maxDepth && EntryOk(env, root, maxDepth, e, path)
    requires legal == LegalMoves(e.game)
    requires Inv(env, root, maxDepth, st, tr)
    ensures Inv(env, root, maxDepth, st2, tr2) && Extends(st, tr, st2, tr2, e.depth + 1)
    ensures KeysSeen(env, e.game, legal, childKeys, st2.visited)
  {
    st2, tr2, childKeys := st, tr, [];
    var k := 0;
    while k < |legal|
      invariant 0 <= k <= |legal|
      invariant Inv(env, root, maxDepth, st2, tr2) && Extends(st, tr, st2, tr2, e.depth + 1)
      invariant KeysSeen(env, e.game, legal[..k], childKeys, st2.visited)
    {
      ghost var stPrev, trPrev := st2, tr2;
      var key;
      st2, tr2, key := VisitChild(env, root, maxDepth, e, path, legal[k], st2, tr2);
      ExtendsTrans(st, tr, stPrev, trPrev, st2, tr2, e.depth + 1);
      KeysSeenStep(env, e.game, legal, k, childKeys, key, stPrev.visited, st2.visited);
      childKeys := childKeys + [key];
      k := k + 1;
    }
    assert legal[..k] == legal;
  }

  /** The loop of `find_best_move_graph`, from the root entry until the queue is empty. */
  method RunQueue(env: Env, root: Game, maxDepth: nat) returns (st: Search, ghost tr: Trace)
    ensures Inv(env, root, maxDepth, st, tr)
    ensures RootHasNewChild(env, root) ==> |tr.scored| > 0
    ensures RootChildrenScored(env, root, tr.scored)
  {
    st := Search([Entry(root, 0, None)], {SerializeState(root)}, None, NegInf);
    tr := Trace([[]], [], 0);
    InitOk(env, root, maxDepth);
    ghost var rootDone := false;
    while |st.queue| > 0
      invariant Inv(env, root, maxDepth, st, tr) && LevelOrder(st.queue)
      invariant !rootDone ==> st.queue == [Entry(root, 0, None)] && tr.scored == []
      invariant rootDone ==> RootChildrenVisited(env, root, st.visited)
      decreases Height(st.queue, maxDepth), FrontCount(st.queue)
    {
      st, tr := QueueStep(env, root, maxDepth, st, tr, rootDone);
      rootDone := true;
    }
    VisitedRootChildrenScored(env, root, tr.scored, st.visited);
  }

  /** One turn of the loop: the front entry is taken off the queue and, unless it lies
      past the depth limit, expanded. The first turn expands the root, after which the
      position of every root move is visited. */
  method QueueStep(env: Env, root: Game, maxDepth: nat, st: Search, ghost tr: Trace, ghost rootDone: bool)
    returns (st2: Search, ghost tr2: Trace)
    requires Inv(env, root, maxDepth, st, tr) && LevelOrder(st.queue) && |st.queue| > 0
    requires !rootDone ==> st.queue == [Entry(root, 0, None)] && tr.scored == []
    requires rootDone ==> RootChildrenVisited(env, root, st.visited)
    ensures Inv(env, root, maxDepth, st2, tr2) && LevelOrder(st2.queue)
    ensures RootChildrenVisited(env, root, st2.visited)
    ensures 0 <= Height(st2.queue, maxDepth) < Height(st.queue, maxDepth) ||
      (Height(st2.queue, maxDepth) == Height(st.queue, maxDepth) && FrontCount(st2.queue) < FrontCount(st.queue))
  {
    var current := st.queue[0];
    ghost var path := tr.paths[0];
    PopOk(env, root, maxDepth, st, tr);
    st2 := st.(queue := st.queue[1..]);
    tr2 := tr.(paths := tr.paths[1..]);
    if current.depth > maxDepth {
      LevelStep(st.queue, st2.queue, maxDepth);
      return;
    }
    ghost var childKeys;
    var legal := GetLegalMoves(current.game);
    st2, tr2, childKeys := ExpandEntry(env, root, maxDepth, current, path, legal, st2, tr2);
    if !rootDone {
      RootExpanded(env, root, tr2.scored, st2.visited, childKeys);
    } else {
      RootChildrenStayVisited(env, root, st.visited, st2.visited);
    }
    LevelStep(st.queue, st2.queue, maxDepth);
  }

  /** `find_best_move_graph` up to its final `describe_move`. Every position scored lies
      one to `maxDepth + 1` offered moves from the root and was scored once; the move
      returned is the first move towards the earliest scored position of highest score.
      Nothing is found only when every offered root move leads back to the root's key. */
  method SearchGraph(env: Env, root: Game, maxDepth: nat)
    returns (best: Option<Move>, ghost scored: seq<Scored>)
    ensures best.Some? ==> best.value in LegalMoves(root)
    ensures best.None? <==> |scored| == 0
    ensures AllScoredOk(env, root, maxDepth, scored)
    ensures forall i, j :: 0 <= i < j < |scored| ==> scored[i].key != scored[j].key
    ensures forall i :: 0 <= i < |scored| ==> scored[i].key != SerializeState(root)
    ensures best.Some? ==>
      exists b :: 0 <= b < |scored| && best == Some(scored[b].first) &&
        (forall i :: 0 <= i < |scored| ==> scored[i].score <= scored[b].score) &&
        (forall j :: 0 <= j < b ==> scored[j].score < scored[b].score)
    ensures best.None? ==> !RootHasNewChild(env, root)
    // every root move to a key other than the root's is among those scored
    ensures forall m :: NewRootChild(env, root, m) ==>
      exists i :: 0 <= i < |scored| && scored[i].key == SerializeState(ApplyMove(env, root, m))
  {
    var st;
    ghost var tr;
    st, tr := RunQueue(env, root, maxDepth);
    best := st.best;
    scored := tr.scored;
    RootChildrenFound(env, root, scored);
    if best.Some? {
      var b := tr.bestIdx;
      FirstIsOffered(env, root, maxDepth, scored[b]);
      BestIsHighest(scored, best, st.bestScore, b);
    }
  }

  /** A root child whose key is among the scored keys is one of the scored positions. */
  lemma RootChildrenFound(env: Env, root: Game, scored: seq<Scored>)
    requires RootChildrenScored(env, root, scored)
    ensures forall m :: NewRootChild(env, root, m) ==>
      exists i :: 0 <= i < |scored| && scored[i].key == SerializeState(ApplyMove(env, root, m))
  {
    forall m | NewRootChild(env, root, m)
      ensures exists i :: 0 <= i < |scored| && scored[i].key == SerializeState(ApplyMove(env, root, m))
    {
      KeySetMembers(scored, SerializeState(ApplyMove(env, root, m)));
    }
  }

  /** The first move of a scored play is offered at the root. */
  lemma FirstIsOffered(env: Env, root: Game, maxDepth: nat, s: Scored)
    requires ScoredOk(env, root, maxDepth, s)
    ensures s.first in LegalMoves(root)
  {
    LegalMovesExactly(root, s.first);
  }

  /** The best entry scores at least as much as every entry and more than every earlier one. */
  lemma BestIsHighest(scored: seq<Scored>, best: Option<Move>, bestScore: ExtReal, b: nat)
    requires BestOk(scored, best, bestScore, b) && |scored| > 0
    ensures b < |scored| && best == Some(scored[b].first)
    ensures forall i :: 0 <= i < |scored| ==> scored[i].score <= scored[b].score
    ensures forall j :: 0 <= j < b ==> scored[j].score < scored[b].score
  {
    forall i | 0 <= i < |scored|
      ensures scored[i].score <= scored[b].score
    {
      assert !Fin(scored[i].score).Above(bestScore);
    }
  }

  /** `find_best_move_graph`: the breadth-first search, described as text. The ghost
      `scored` are the positions the search scored, in order. */
  method FindBestMoveGraph(env: Env, root: Game, maxDepth: nat) returns (text: string, ghost scored: seq<Scored>)
    ensures text == "No move found" ==> !RootHasNewChild(env, root)
    ensures text == "No move found" || exists m :: m in LegalMoves(root) && text == DescribeMove(Some(m))
    ensures AllScoredOk(env, root, maxDepth, scored)
    ensures forall m :: NewRootChild(env, root, m) ==>
      exists i :: 0 <= i < |scored| && scored[i].key == SerializeState(ApplyMove(env, root, m))
    // the text describes the first move towards the earliest scored position of highest score
    ensures |scored| == 0 ==> text == "No move found"
    ensures |scored| > 0 ==>
      exists b :: 0 <= b < |scored| && text == DescribeMove(Some(scored[b].first)) &&
        (forall i :: 0 <= i < |scored| ==> scored[i].score <= scored[b].score) &&
        (forall j :: 0 <= j < b ==> scored[j].score < scored[b].score)
  {
    var best;
    best, scored := SearchGraph(env, root, maxDepth);
    text := DescribeMove(best);
  }
}

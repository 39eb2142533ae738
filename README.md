# Klondike move advisor, in Dafny

This project models the core of a Python Klondike-solitaire game and its move advisor.

The solitaire part covers:

- the card and the three pile types of `data_structures/`: foundation, tableau column and stock;
- the advisor in `game_logic/`. It has three parts:
  - the shared move utilities: the move record, the canonical state key, the heuristic score, and move application on a copy;
  - the depth-bounded backtracking search;
  - the breadth-first search and the greedy policy;
- the game class and the two move functions of `main.py`: the opening deal, moves given by name, and the player's drag-and-drop.

It also covers the card containers of an abandoned rummy and peg-solitaire prototype: `cards.py`, `models.py`, `spaces.py` and `game.py`.

Code that builds a value or copies a game is written as datatypes and functions. Objects whose fields the source changes in place are classes with `seq` fields and `modifies` clauses. The source's loops are methods with loop invariants. Each method is proved against a specification function, and the game's properties are lemmas about those functions.

Files and modules:

- `wrappers.dfy`: `Option`, and Python's negative list indices (`PyList`).
- `text.dfy`: decimal text (`str` and `int` on integers).
- `cards.dfy`, `foundation.dfy`, `board.dfy`, `stock.dfy`: `data_structures/`.
- `game_state.dfy`: the position the advisor works on, and the multiset of its cards.
- `serialize.dfy`, `score.dfy`, `moves.dfy`: `game_logic/move_utils.py`.
- `legal_moves.dfy`: `_is_valid_sequence`, `get_legal_moves` and `describe_move`, which the two searches copy word for word.
- `conservation.dfy`: every offered move other than `reset_stock` keeps the multiset of cards.
- `tree_search.dfy`: `game_logic/best_move_tree.py`.
- `graph_invariant.dfy` and `graph_search.dfy`: `game_logic/best_move_graph.py`.
- `greedy.dfy`: `game_logic/greedy_ai.py`.
- `deal.dfy`, `move_names.dfy`, `player_moves.dfy`, `solitaire_game.dfy`: `main.py`.
- `rummy_cards.dfy`, `models.dfy`, `spaces.dfy`, `marble.dfy`: the prototype's `cards.py`, `models.py`, `spaces.py` and `game.py`.

## Model

| member | source | states |
|---|---|---|
| PyList.PyIndex | cards.py:27-31 | A Python index from -n to n-1 picks position i when it is not negative, and n + i when it is. |
| Text.NatToString | data_structures/cards.py:35 | `str` of a natural number is a non-empty string of digits with no leading zero. |
| Text.IntToString | data_structures/cards.py:35 | `str` of an integer starts with a digit exactly when the integer is not negative. |
| Text.ParseInt | main.py:107 | Python's `int` on text that starts with a digit gives a non-negative number. |
| Text.DigitsRoundTrip | data_structures/cards.py:35 | Reading back the digits `str` writes for a natural number gives that number. |
| Text.ParseDigits | main.py:107 | `int` of a non-empty digit string is its decimal value. |
| Text.ParseNegated | main.py:107 | `int` of "-" followed by digits is the negated value. |
| Text.IntRoundTrip | main.py:107 | `int(str(i)) == i` for every integer. |
| Text.DigitValue | main.py:113 | `int` of one digit character is the digit that prints as that character. |
| Cards.SuitIndex | main.py:169-170 | Each suit sits at its own position in the order H, D, C, S. |
| Cards.SuitLetter | data_structures/cards.py:9-12 | The suit is stored as one of the letters C, D, H, S. |
| Cards.NewCard | data_structures/cards.py:9-12 | A new card has the given rank and suit, and is face-down unless `revealed` is passed. |
| Cards.Flip | data_structures/cards.py:20-22 | `flip` negates `revealed` and keeps rank and suit. |
| Cards.FlipTwice | data_structures/cards.py:20-22 | Flipping twice gives back the card. |
| Cards.ColourExactlyOne | data_structures/cards.py:24-30 | Red means hearts or diamonds, black means clubs or spades, and every card is exactly one of the two. |
| Cards.RankName | data_structures/cards.py:34-35 | Ranks 1, 11, 12 and 13 print as A, J, Q and K; every other rank prints in decimal. |
| Cards.CardRepr | data_structures/cards.py:32-36 | `repr` is the rank name followed by the suit's symbol. |
| Cards.RankNameInjective | data_structures/cards.py:34-35 | Different ranks from 1 to 13 have different names. |
| Cards.ReprDeterminesCard | data_structures/cards.py:32-36 | Two cards of a real deck with the same `repr` have the same rank and suit. |
| Foundation.AcceptKeepsAscending | data_structures/foundation.py:16-30 | Adding an accepted card keeps the pile in suit from Ace upwards with no gap, and the new card's rank is the pile's size plus one. |
| Foundation.AcceptsNextRank | data_structures/foundation.py:16-24 | On such a pile, `can_add` holds exactly for the pile's suit at rank size + 1. |
| Foundation.FoundationPile.constructor | data_structures/foundation.py:12-14 | A new pile has its suit and no cards. |
| Foundation.FoundationPile.CanAdd | data_structures/foundation.py:16-24 | The suit must match. An empty pile takes only an Ace; otherwise the rank must be one above the last card's. |
| Foundation.FoundationPile.Add | data_structures/foundation.py:26-30 | The card is appended exactly when `can_add` holds, and the pile stays ascending; otherwise nothing changes. |
| Foundation.FoundationPile.Peek | data_structures/foundation.py:32-36 | The last card, or None exactly when the pile is empty. |
| Foundation.FoundationPile.Pop | data_structures/foundation.py:38-42 | Removes and returns exactly the last card; an empty pile gives None and stays as it was. |
| Foundation.FoundationPile.Size | data_structures/foundation.py:44-45 | The number of cards. |
| Tableau.TopRevealed | data_structures/board.py:40-45 | The last face-up card of a column, or none when every card is face-down. |
| Tableau.BoardAdd | data_structures/board.py:33-38 | An accepted card is appended face-up; a refused card leaves the column as it was. |
| Tableau.RevealTop | data_structures/board.py:63-66 | Only the last card changes, and it ends face-up. |
| Tableau.RevealTopIdempotent | data_structures/board.py:63-66 | Revealing twice is the same as revealing once. |
| Tableau.AcceptsOnFaceUpTop | data_structures/board.py:17-31 | On a face-up last card, a card is accepted exactly when it is one rank lower and of the other colour. |
| Tableau.AllFaceDownAcceptsNothing | data_structures/board.py:22-24 | A non-empty column with no face-up card accepts nothing. |
| Tableau.BoardPile.constructor | data_structures/board.py:14-15 | A new column is empty. |
| Tableau.BoardPile.GetTopRevealedCard | data_structures/board.py:40-45 | The backward scan returns the last face-up card, or None exactly when no card is face-up. |
| Tableau.BoardPile.CanAdd | data_structures/board.py:17-31 | An empty column takes only a King. Otherwise the card must be one rank below the last face-up card and of the other colour. |
| Tableau.BoardPile.Add | data_structures/board.py:33-38 | Answers `can_add`, and the column becomes `BoardAdd` of the old one. |
| Tableau.BoardPile.Peek | data_structures/board.py:51-55 | The last card, or None exactly when the column is empty. |
| Tableau.BoardPile.Pop | data_structures/board.py:57-61 | Removes and returns exactly the last card, or gives None on an empty column. |
| Tableau.BoardPile.RevealTopCard | data_structures/board.py:63-66 | The column becomes `RevealTop` of the old one. |
| Tableau.BoardPile.Size | data_structures/board.py:68-69 | The number of cards. |
| Stock.StockPile.constructor | data_structures/stock.py:4-5 | A new stock is empty. |
| Stock.StockPile.Draw | data_structures/stock.py:7-11 | Removes and returns the last card, or gives None and changes nothing when empty. |
| Stock.StockPile.Add | data_structures/stock.py:13-16 | The card goes on top, face-down. |
| Stock.StockPile.IsEmpty | data_structures/stock.py:18-19 | True exactly when the size is 0. |
| Stock.StockPile.Size | data_structures/stock.py:21-22 | The number of cards. |
| Stock.AddThenDraw | data_structures/stock.py:7-16 | The stock is last in, first out: a draw right after `add(c)` gives back `c` face-down and restores the pile. |
| GameState.Foundations.With | game_logic/move_utils.py:106 | Replacing the pile of one suit keeps the other three. |
| GameState.BagIgnoresFaces | game_logic/move_utils.py:98 | Turning cards over does not change which cards a state holds. |
| GameState.BoardBagUpdate | game_logic/move_utils.py:110 | Replacing one column changes the tableau's cards by that column only. |
| Serialize.SerializeState | game_logic/move_utils.py:27-36 | The key holds the sorted serialized columns, then the four foundations in H, D, C, S order, then stock and waste as (rank, suit) pairs. |
| Serialize.TripleLeTotalOrder | game_logic/move_utils.py:32 | Python's order on (rank, suit, revealed) tuples is a total order. |
| Serialize.InsertSorted | game_logic/move_utils.py:32 | Inserting a column into a sorted list keeps it sorted and adds exactly that column. |
| Serialize.SortColumnsCorrect | game_logic/move_utils.py:32 | The sorted columns are ordered by the sort key and are a permutation of the input. |
| Serialize.SortedUnique | game_logic/move_utils.py:32 | Two sorted orders of the same columns agree when no two different columns share a sort key. |
| Serialize.SerBoardPermutation | game_logic/move_utils.py:28-31 | Boards holding the same columns serialize to the same multiset of columns. |
| Serialize.SerColumnInjective | game_logic/move_utils.py:30 | Serializing a column loses nothing. |
| Serialize.ColumnOrderIrrelevant | game_logic/move_utils.py:27-36 | Reordering the tableau columns does not change the key, provided their last cards tell the columns apart. |
| Serialize.KeyIgnoresFlagsOutsideTableau | game_logic/move_utils.py:33-35 | The key ignores the face-up flag of stock, waste and foundation cards. |
| Serialize.EmptyColumnsFirst | game_logic/move_utils.py:32 | With real ranks, empty columns come first in the key. |
| Scoring.ExtReal.Plus | game_logic/best_move_tree.py:148-161 | Adding a finite amount to `-inf` stays `-inf`; a finite score grows by that amount. |
| Scoring.AboveAfterNotAbove | game_logic/best_move_tree.py:162 | `>` between scores is consistent: a score not above `b` is not above anything `b` is below. |
| Scoring.ScoreState | game_logic/move_utils.py:38-90 | The loops compute `Score`: the foundation terms, the staged bonus, the revealed and empty-column terms, the run bonus, and the stock and waste penalties. |
| Scoring.FoundationLoop | game_logic/move_utils.py:42-48 | The suit loop adds three times the foundation points per card plus twice the square of each pile's size, and it counts the cards. |
| Scoring.RevealedLoop | game_logic/move_utils.py:59-62 | Half the revealed-card points for each face-up tableau card. |
| Scoring.EmptyPileLoop | game_logic/move_utils.py:65-76 | The empty-column points, tripled when some column has a King at the bottom with more cards on it. |
| Scoring.RunLoop | game_logic/move_utils.py:79-84 | 0.3 per face-up tableau card. |
| Scoring.TimesIsProduct | game_logic/move_utils.py:62 | Adding `x` n times gives n · x. |
| Scoring.FoundationPointsGrow | game_logic/move_utils.py:47-48 | With non-negative foundation points, a pile's points grow strictly with its size. |
| Scoring.OneMoreFoundationCardScoresHigher | game_logic/move_utils.py:38-90 | With non-negative foundation points, one more foundation card, all else equal, strictly raises the score. |
| Moves.ApplyMove | game_logic/move_utils.py:92-133 | Each move changes only the piles it names. The stock moves leave the tableau and foundations alone, and every other move leaves the stock alone. A waste move removes the waste's last card, and a tableau move leaves the waste alone. Every column a move does not name keeps its cards, and the number of columns never changes. |
| Moves.DrawToWaste | game_logic/move_utils.py:95-100 | Drawing moves the stock's last card face-up onto the waste; an empty stock changes nothing. |
| Moves.FoundationAdd | game_logic/move_utils.py:106 | The card's own suit pile takes it when it accepts it. The other piles never change. |
| Moves.FaceUp | game_logic/move_utils.py:127-128 | The run with every card turned face-up. |
| Moves.AddRunTakesBuildRun | game_logic/move_utils.py:127-129 | A build run whose head the destination accepts arrives whole, face-up. |
| Moves.DrawStockEffect | game_logic/move_utils.py:95-100 | `draw_stock` changes nothing on an empty stock. Otherwise it moves exactly the last stock card face-up onto the waste. |
| Moves.BoardToFoundationNoOp | game_logic/move_utils.py:115 | `Board_to_foundation` from anything but the last index changes nothing. |
| Moves.BoardToFoundationEffect | game_logic/move_utils.py:112-120 | From the last index, the card is popped and offered to its foundation, and the new last card is shown. |
| Moves.BoardToBoardEffect | game_logic/move_utils.py:121-132 | The run is cut from the source, each card is offered to the destination in turn, and the source's new last card is shown. |
| MoveGeneration.IsValidSequence | game_logic/best_move_tree.py:19-35 | The two loops answer exactly `ValidSequence`: the index lies in the column, and from there on every card is face-up and one rank above the next, in the other colour. `_is_valid_Board_sequence` at main.py:145-158 is the same test. |
| MoveGeneration.ValidSequenceIsBuildRun | game_logic/best_move_tree.py:19-35 | The cards from a valid index form a face-up build run. |
| MoveGeneration.GetLegalMoves | game_logic/best_move_tree.py:37-69 | The loops build exactly `LegalMoves`, in the source's order. |
| MoveGeneration.TableauLoop | game_logic/best_move_tree.py:46-64 | The loop over the columns concatenates each column's moves. |
| MoveGeneration.ColumnLoop | game_logic/best_move_tree.py:47-64 | An empty column offers nothing; otherwise the moves of each start index, in order. |
| MoveGeneration.WasteLoop | game_logic/best_move_tree.py:39-45 | The waste card's foundation move, then each accepting column in order. |
| MoveGeneration.StartLoop | game_logic/best_move_tree.py:51-64 | From a face-up, valid start: the foundation move when the start is the last index, then each other accepting column. |
| MoveGeneration.InColumnMoves | game_logic/best_move_tree.py:46-64 | A column offers exactly the legal moves out of it. |
| MoveGeneration.BoardMovesExactly | game_logic/best_move_tree.py:46-64 | The tableau part of the list holds exactly the legal tableau moves. |
| MoveGeneration.WasteMovesExactly | game_logic/best_move_tree.py:39-45 | The waste part holds exactly the legal moves of the waste's last card. |
| MoveGeneration.LegalMovesExactly | game_logic/best_move_tree.py:37-69 | A move is in the list if and only if it passes the tests `IsLegal` states. |
| MoveGeneration.StockMovesOffered | game_logic/best_move_tree.py:65-68 | `draw_stock` is offered exactly when the stock has cards, and `reset_stock` exactly when the stock is empty and the waste is not; never both. |
| MoveGeneration.LegalIsInRange | game_logic/move_utils.py:92-133 | A legal move can be applied without an exception. |
| MoveGeneration.DescribeMove | game_logic/best_move_tree.py:190-205 | "No move found" exactly for no move, and the fixed texts for the stock moves. A card move reads "Move", the card, "from column" and the source column or "from waste", then "to column" and the destination column or "to the foundation". |
| MoveGeneration.DescribeMoveInjective | game_logic/best_move_tree.py:190-205 | For real cards, two moves get the same text exactly when they are of the same kind, name the same columns and move cards of the same rank and suit. |
| Conservation.LegalMoveConservesCards | game_logic/move_utils.py:92-133 | Every move `get_legal_moves` offers, other than `reset_stock`, keeps the multiset of cards in the game. |
| Conservation.DrawConserves | game_logic/move_utils.py:95-100 | Drawing keeps the cards. |
| Conservation.WasteToFoundationConserves | game_logic/move_utils.py:104-107 | A legal waste-to-foundation move keeps the cards. |
| Conservation.WasteToBoardConserves | game_logic/move_utils.py:108-111 | A legal waste-to-column move keeps the cards. |
| Conservation.BoardToFoundationConserves | game_logic/move_utils.py:112-120 | A legal column-to-foundation move keeps the cards. |
| Conservation.BoardToBoardConserves | game_logic/move_utils.py:121-132 | A valid run moved onto a column that accepts its head keeps the tableau's cards. |
| TreeSearch.Filter | game_logic/best_move_tree.py:131 | A list comprehension keeps exactly the members that satisfy the test. |
| TreeSearch.Window | game_logic/best_move_tree.py:102 | `recent_moves[-10:]` holds at most the last ten entries. |
| TreeSearch.FilterRecentMoves | game_logic/best_move_tree.py:88-128 | The filter loop computes the root filter. |
| TreeSearch.IsBlocked | game_logic/best_move_tree.py:92-121 | The loop body decides exactly `Blocked`. A foundation move is never blocked; any other move is blocked when it was made three times in the last ten entries or once in the last three. |
| TreeSearch.CountRecent | game_logic/best_move_tree.py:101-105 | The count of history entries with the move's signature. |
| TreeSearch.InLastThree | game_logic/best_move_tree.py:108-115 | Whether one of the last three entries has the move's signature, looked at only from three entries on. |
| TreeSearch.RootFilterProperties | game_logic/best_move_tree.py:88-128 | The root filter keeps only offered moves and every foundation move. When something survives, it drops exactly the blocked moves, and it never empties a non-empty list. |
| TreeSearch.ClassesCoverAll | game_logic/best_move_tree.py:137-146 | The four priority classes together hold exactly the moves. |
| TreeSearch.OrderMovesPermutes | game_logic/best_move_tree.py:146 | The ordering only permutes the moves. |
| TreeSearch.OrderMovesSorted | game_logic/best_move_tree.py:137-146 | After the ordering, priorities never increase along the list. |
| TreeSearch.CandidatesAreLegal | game_logic/best_move_tree.py:83-128 | Every move the search expands is offered and legal. |
| TreeSearch.SearchBestMove | game_logic/best_move_tree.py:72-187 | The outcome is one that `Searched` allows, so only the noise and the random picks are free. A visited key gives `-inf`, no move and `visited` unchanged. A leaf gives its score and keeps its key visited. At depth 6 with a foundation candidate, the result is 1000 and a foundation move, and the key stays visited. Otherwise every ordered move's position is searched in turn, one level deeper, with the set the previous child handed back, and that child's outcome is again one `Searched` allows. The score and the near-tie list are what the tie loop computes over the adjusted child scores. The move comes from the tie-break, and the key leaves `visited`. A returned move is a candidate and is offered. |
| TreeSearch.SearchMoves | game_logic/best_move_tree.py:87-187 | The part after the leaf tests has an outcome that `Explored` allows: the root filter, then the foundation shortcut, or else the ordered children each searched as `Searched` states, the tie loop and the tie-break. The key leaves `visited` except after the shortcut. |
| TreeSearch.ExpandNode | game_logic/best_move_tree.py:148-169 | Every ordered move's child is searched one level deeper, and its outcome is one `Searched` allows. Each child gets the set the previous child handed back, and the final set is the last child's. Each adjusted score relates to that child's searched score as `Adjusts` states. The best score and the tie list are what the tie loop `Scan` computes over the adjusted scores. |
| TreeSearch.ChildScore | game_logic/best_move_tree.py:151-161 | The move's position is searched one level deeper with the shared set and no history. The outcome is one `Searched` allows: a visited key gives `-inf`, a leaf gives its score, and the shortcut and expanded cases follow that child's own search. The adjusted score is `-inf` exactly when the child's is. Otherwise it is the child's score, plus 1000 for a foundation move, plus noise in [0, 1). `visited` only grows. |
| TreeSearch.Scan | game_logic/best_move_tree.py:148-166 | The tie list is empty exactly while the best score is `-inf`, and every move on it is one of the moves looked at. |
| TreeSearch.ScanClosedForm | game_logic/best_move_tree.py:148-166 | No adjusted score is above the best. The list starts with the move at the first index reaching the best, and goes on with exactly the later moves within 5.0 of the best, in order. |
| TreeSearch.NearInMeaning | game_logic/best_move_tree.py:165 | A move is in the near-tie part exactly when its adjusted score is within 5.0 of the best (both directions). |
| TreeSearch.ScanWindow | game_logic/best_move_tree.py:162-166 | Every move on the tie list has an adjusted score within 5.0 of the best. The list starts with the first move reaching the best, and every later move within 5.0 of the best is on it. |
| TreeSearch.ExpandedChoice | game_logic/best_move_tree.py:148-187 | For an expanded node without the shortcut, whatever the noise and picks: each adjusted score relates to the child's own searched score; the node's score is the highest adjusted score; no move exactly when it is `-inf`; every tie is within 5.0 of it; the tie list starts with the first move reaching it and holds every later move within 5.0 of it; and the move is chosen from the list by the tie-break. |
| TreeSearch.KidsSearchedAt | game_logic/best_move_tree.py:151-161 | Each child recorded so far was searched with the set the previous child handed back, and its score adjusted. |
| TreeSearch.Bonus | game_logic/best_move_tree.py:157-158 | 1000 for a foundation move, 0 for any other. |
| TreeSearch.ChooseAmongTies | game_logic/best_move_tree.py:172-184 | Among several near-ties, a foundation move if there is one, else a non-stock move if there is one, else any; a single tie is taken. |
| TreeSearch.FindBestMove | game_logic/best_move_tree.py:208-214 | The text describes the move of an outcome that `Searched` allows from an empty `visited` set. It is one of the moves offered at the root, or "No move found". At depth 0 or with no move it is always "No move found". At depth 6 with a foundation candidate, the move is an offered foundation move scored 1000. |
| GraphInvariant.Play | game_logic/best_move_graph.py:98-114 | A play's first move is legal at the start position. |
| GraphInvariant.PlayExtend | game_logic/best_move_graph.py:102-104 | Playing one more offered move extends a play to the position that move leads to. |
| GraphInvariant.OfferedInRange | game_logic/best_move_graph.py:102-104 | A move the search is offered is legal and can be applied. |
| GraphInvariant.KeysSeenStep | game_logic/best_move_graph.py:103-108 | After each inner step, the keys seen so far are those of the moves tried, and all of them are visited. |
| GraphInvariant.CountAtAppend | game_logic/best_move_graph.py:114 | The entries at a depth add up over the parts of the queue. |
| GraphInvariant.LevelStep | game_logic/best_move_graph.py:99-114 | Popping the front and queueing entries one level deeper keeps the queue in level order. It either raises the front level or leaves fewer entries on it, so the loop ends. |
| GraphInvariant.InitOk | game_logic/best_move_graph.py:91-97 | The start holds the invariant: the root is queued at depth 0, its key is visited, and nothing is scored. |
| GraphInvariant.PopOk | game_logic/best_move_graph.py:99 | The popped entry is reached by a play of its depth; the rest of the queue keeps the invariant. |
| GraphInvariant.RecordOk | game_logic/best_move_graph.py:105-114 | Recording a child with a new key keeps the invariant: the child is visited, scored, may become the best, and is queued one level deeper. |
| GraphInvariant.ChildOk | game_logic/best_move_graph.py:104-114 | The child of an offered move is a well-formed entry one level deeper. |
| GraphInvariant.Grow | game_logic/best_move_graph.py:104-114 | Queueing and recording the child keeps both records well-formed. |
| GraphInvariant.BestStep | game_logic/best_move_graph.py:111-113 | A strictly higher score takes over the best; any other score leaves it. |
| GraphInvariant.NewKey | game_logic/best_move_graph.py:106-108 | `visited` stays the root's key plus the scored keys, all distinct. |
| GraphInvariant.RootExpanded | game_logic/best_move_graph.py:98-114 | Once the root is expanded, the position of every root move has its key visited, and every root move to a key other than the root's has been scored. |
| GraphInvariant.VisitedRootChildrenScored | game_logic/best_move_graph.py:97-108 | With `visited` the root's key plus the scored keys, visiting every root child means every root move to a new key was scored; so some root move reaching a new key means something was scored. |
| GraphInvariant.RootChildrenStayVisited | game_logic/best_move_graph.py:108 | `visited` only grows, so the root's children stay visited. |
| GraphInvariant.KeySetMembers | game_logic/best_move_graph.py:108 | A key among the scored keys is the key of some scored position. |
| GraphSearch.VisitChild | game_logic/best_move_graph.py:104-114 | The inner loop body for one move keeps the invariant and visits the child's key. |
| GraphSearch.ExpandEntry | game_logic/best_move_graph.py:102-114 | After the inner loop, every offered move's child key is visited. |
| GraphSearch.RunQueue | game_logic/best_move_graph.py:98-114 | The loop ends with the invariant held, and every root move to a key other than the root's has been scored. |
| GraphSearch.QueueStep | game_logic/best_move_graph.py:99-114 | One turn of the loop keeps the invariant and the level order, leaves every root child visited, and makes progress: the front level rises or fewer entries are left on it. |
| GraphSearch.SearchGraph | game_logic/best_move_graph.py:89-114 | Every scored position lies one to `max_depth + 1` offered moves from the root, and each key is scored once. Every root move to a key other than the root's is among the scored positions. The move returned is the first move towards the earliest scored position of highest score. Nothing is found exactly when nothing is scored, which happens only when every root move leads back to the root's key. |
| GraphSearch.FindBestMoveGraph | game_logic/best_move_graph.py:89-120 | The text describes the first move towards the earliest scored position of highest score, over scored positions that include every root move to a new key. It is "No move found" when nothing was scored, and only when no root move reaches a new key. |
| Greedy.WasteToFoundationRule | game_logic/greedy_ai.py:19-22 | Fires exactly when the waste's last card fits its foundation. |
| Greedy.ColumnToFoundationRule | game_logic/greedy_ai.py:25-29 | The lowest column whose face-up last card fits its foundation, or nothing when no column has one. |
| Greedy.FirstTopGoesUp | game_logic/greedy_ai.py:25-29 | The scan stops at the first such column. |
| Greedy.FirstOtherAccepts | game_logic/greedy_ai.py:43-44 | The first other column that accepts the card. |
| Greedy.LastHidden | game_logic/greedy_ai.py:36-37 | The highest face-down card below an index, or none when all are face-up. |
| Greedy.RevealFrom | game_logic/greedy_ai.py:34-48 | From column i: the cards above its highest face-down card go to the lowest other accepting column, provided the first of them is face-up. |
| Greedy.FirstReveals | game_logic/greedy_ai.py:33 | The first column for which rule 2 finds a move. |
| Greedy.RevealRule | game_logic/greedy_ai.py:33-48 | Rule 2's move, or nothing when no column gives one. |
| Greedy.FirstAccepts | game_logic/greedy_ai.py:53-54 | The first column that accepts the card. |
| Greedy.WasteToBoardRule | game_logic/greedy_ai.py:51-55 | The waste card goes to the lowest accepting column; nothing when none accepts it. |
| Greedy.FirstRaisedKing | game_logic/greedy_ai.py:64-66 | The first face-up King that is not the bottom card. |
| Greedy.FirstKingSource | game_logic/greedy_ai.py:61-62 | The first other non-empty column holding such a King. |
| Greedy.FirstKingTarget | game_logic/greedy_ai.py:58-59 | The first empty column that some column can send a King. |
| Greedy.KingRule | game_logic/greedy_ai.py:58-70 | Rule 4's move of a raised King into an empty column, or nothing. |
| Greedy.LastMovable | game_logic/greedy_ai.py:75-79 | The highest face-up card of the column that another column accepts. |
| Greedy.FirstHasMovable | game_logic/greedy_ai.py:73-74 | The first column that has such a card. |
| Greedy.AnyBoardRule | game_logic/greedy_ai.py:73-82 | Rule 5's move, or nothing when no column has a movable card. |
| Greedy.StockRule | game_logic/greedy_ai.py:85-93 | Draw when the stock has cards, else reset when the waste has cards, else no move. |
| Greedy.FirstFiring | game_logic/greedy_ai.py:8-93 | The first rule, in order, that yields a move decides. Nothing is chosen exactly when no rule yields a move. |
| Greedy.GreedyMove | game_logic/greedy_ai.py:8-93 | The policy's move is that of the first of its seven rules, in order, that yields one. It is "no move" exactly when none does. |
| Greedy.WasteToFoundationComesFirst | game_logic/greedy_ai.py:17-22 | A waste card that fits its foundation is the move, whatever else is possible. |
| Greedy.GreedyBoardMovesFit | game_logic/greedy_ai.py:33-82 | Every tableau move of the policy joins two different existing columns, starts at a face-up card, and the destination accepts that card. |
| Greedy.GreedyStockMoves | game_logic/greedy_ai.py:84-93 | Draw, reset and "no move" are chosen exactly when no other rule fires and the stock/waste condition holds. |
| Greedy.WasteToBoardBeforeTableau | game_logic/greedy_ai.py:50-55 | Rule 3 wins over rules 4 and 5 once rules 1 and 2 do not fire. |
| Greedy.GreedyNonBoardMovesLegal | game_logic/greedy_ai.py:8-93 | The policy's foundation, waste and stock moves pass the tests of `get_legal_moves`. |
| Greedy.GreedyNonBoardMovesOffered | game_logic/greedy_ai.py:8-93 | So they are among the moves `get_legal_moves` offers. |
| Greedy.AnyBoardRuleSkipsRunCheck | game_logic/greedy_ai.py:73-82 | Rule 5 moves a card with everything above it without the build-run test, and picks a move `get_legal_moves` refuses. |
| Greedy.AnyBoardRuleMoveNotOffered | game_logic/greedy_ai.py:73-82 | That move is not among the offered moves. |
| Greedy.AnyBoardRuleMoveDropsCard | game_logic/move_utils.py:121-132 | Applying it puts the King in the empty column and loses the Queen the King refuses. |
| Greedy.RevealRuleSkipsRunCheck | game_logic/greedy_ai.py:33-48 | Rule 2 does not test for a build run either. |
| Deal.SuitCards | main.py:62-63 | The inner loop makes one face-down card per rank 1 to 13. |
| Deal.FullDeckHasEveryCardOnce | main.py:59-65 | The deck has 52 cards, holds every rank of every suit face-down, and has no card twice. |
| Deal.CreateDeck | main.py:59-63 | The two loops build the suits one after another, each rank in turn. |
| Deal.Dealt | main.py:74-79 | After i columns, at least i cards have been dealt. |
| Deal.DealtColumn | main.py:75-78 | Column i gets i + 1 cards. |
| Deal.FaceDown | main.py:81-82 | The rest of the deck goes to the stock face-down, in order. |
| Deal.DealtBoard | main.py:74-79 | Each dealt column is the deck's slice after the earlier columns. |
| Deal.DealtMonotone | main.py:74-79 | The deal index never decreases. |
| Deal.OpeningShape | main.py:70-82 | After dealing a shuffled deck, 28 cards are on the tableau and 24 face-down on the stock. Column i holds i + 1 cards, only its last face-up. |
| Deal.DealtBoardBag | main.py:74-79 | The dealt columns hold exactly the deck's first cards. |
| Deal.OpeningKeepsCards | main.py:70-82 | The opening position holds exactly the deck's cards. |
| Solitaire.SolitaireGame.constructor | main.py:38-55 | A new game is the opening position of the shuffled deck. |
| Solitaire.SolitaireGame.DealCards | main.py:70-82 | Column i receives `DealtColumn(deck, i)` and the stock the rest, face-down; waste and foundations are unchanged. |
| Solitaire.SolitaireGame.DealColumn | main.py:75-79 | The inner loop appends the column's cards to column i and changes nothing else. |
| MoveNames.DigitAt | main.py:113 | `int(name[at])` succeeds exactly when that character exists and is a digit. |
| MoveNames.ColumnToColumnNameRaises | main.py:118-120 | `DecodeAsWritten` follows the branches of `apply_move` as written. Under it, every documented "tX->tY" name raises, because index 4 is the letter 't'. |
| MoveNames.DecodeName | main.py:85-123 | `Decode` reads the destination from index 5 instead. With it, every documented name decodes back to its command. |
| MoveNames.DecodeAsWrittenAgrees | main.py:94-116 | As written, the code decodes every documented name other than "tX->tY" as intended. |
| MoveNames.PerformDraw | main.py:94-99 | "draw" moves the stock's last card face-up onto the waste, or does nothing; this is the advisor's draw move. |
| MoveNames.ColumnUpLeavesNewTop | main.py:112-116 | "tX->f" pops the column's last card and does not turn over the card beneath. |
| MoveNames.ColumnToColumnMovesOneCard | main.py:118-123 | "tX->tY" moves one card. The source column loses it even when the destination refuses it, and then the card is lost. |
| Solitaire.ApplyNamedMove | main.py:91-123 | Running a decoded name changes the game exactly as `Perform` says; an unmatched name changes nothing. |
| PlayerMoves.Attempt | main.py:161-206 | A refused drop leaves the position unchanged. |
| PlayerMoves.AttemptIsLegalMove | main.py:161-206 | Every successful drop is one of the advisor's legal moves, with the same effect. |
| PlayerMoves.LegalMoveIsAttempt | main.py:161-206 | Every legal waste or tableau move of the advisor can be made by a drop, with the same effect. |
| PlayerMoves.AttemptConservesCards | main.py:161-206 | A drop never creates, loses or duplicates a card. |
| PlayerMoves.ColumnToFoundationDrop | main.py:180-193 | A column card reaches a foundation exactly when it is the face-up last card and fits. The column's new last card is then face-up. |
| PlayerMoves.ColumnToColumnDrop | main.py:180-203 | A run moves exactly when it is a valid sequence, the columns differ and the destination accepts its head. The source's new last card is then face-up. |
| PlayerMoves.WasteDrop | main.py:166-178 | The waste card moves exactly when the target pile accepts it, and it leaves the waste. |
| Solitaire.AttemptMove | main.py:161-206 | The drop changes the game and answers exactly as `Attempt` says. |
| Solitaire.MoveRunInPlace | main.py:196-202 | The run is cut, offered card by card face-up to the destination, and the source's new last card is shown. |
| RummyCards.Insert | cards.py:52-58 | One pass of the outer loop adds the key, making the list one longer. |
| RummyCards.InsertAt | cards.py:55-58 | The key lands just after the last card not ranked above it. |
| RummyCards.InsertKeepsSorted | cards.py:55-58 | Inserting into a sorted prefix keeps it sorted. |
| RummyCards.InsertMultiset | cards.py:52-58 | Inserting adds exactly the key. |
| RummyCards.InsertOfRank | cards.py:55 | Inserting keeps the order within each rank, the key coming after its own rank. |
| RummyCards.InsertionSortSorted | cards.py:47-58 | `sort_hand` leaves the ranks non-decreasing. |
| RummyCards.InsertionSortPermutes | cards.py:47-58 | `sort_hand` only rearranges the hand. |
| RummyCards.InsertionSortStable | cards.py:47-58 | `sort_hand` is stable: cards of equal rank keep their order. |
| RummyCards.Hand.constructor | cards.py:20-22 | A new hand is empty with the given number. |
| RummyCards.Hand.AddCard | cards.py:24-25 | The card is appended. |
| RummyCards.Hand.GetCard | cards.py:27-28 | The card at a Python index: `hand[idx]`, or for a negative index the card `-idx` places from the end. It is in the hand. |
| RummyCards.Hand.ExtractCard | cards.py:30-31 | The card at the index is removed and returned, and the others keep their order. |
| RummyCards.Hand.AddHand | cards.py:34-35 | The given cards are appended in order. |
| RummyCards.Hand.GetHandList | cards.py:37-38 | The hand's cards. |
| RummyCards.Hand.SortHand | cards.py:47-58 | The hand becomes `InsertionSort` of the old hand: sorted by rank, the same cards, stable. |
| RummyCards.Hand.InsertKey | cards.py:49-58 | One pass of the outer loop extends the sorted prefix by one card and leaves the rest alone. |
| RummyCards.Hand.ShiftHigher | cards.py:55-57 | Every prefix card ranked strictly above the key moves one slot right, and the scan stops at the last card not above it. |
| RummyCards.InsertedPrefix | cards.py:58 | Putting the key in the freed slot gives the sorted prefix of one more card. |
| RummyCards.DeckCard.constructor | cards.py:65-67 | A new node holds its card in front of the chain it links to. |
| RummyCards.DeckCard.DrawCard | cards.py:69-75 | A chain of one node gives None and stays as it was. Otherwise the first card is returned and the chain loses exactly that card. |
| RummyModels.CardEqualsIsFieldEquality | models.py:12-15 | Cards are equal exactly when suit and rank agree. The relation is reflexive and symmetric, and a card equals no other kind of value. |
| RummyModels.Queue.constructor | models.py:19-20 | A new queue is empty. |
| RummyModels.Queue.Enqueue | models.py:22-23 | The item goes at the back. |
| RummyModels.Queue.Dequeue | models.py:25-28 | The front item is removed and returned, first in, first out. An empty queue gives None and stays as it was. |
| RummyModels.Queue.IsEmpty | models.py:30-31 | True exactly when the size is 0. |
| RummyModels.Queue.Size | models.py:33-34 | The number of items. |
| RummyModels.UnshuffledIsFullDeck | models.py:38-41 | The comprehension gives 52 different cards, one of each suit and rank. |
| RummyModels.Shuffled | models.py:42 | The shuffle keeps the list's length. |
| RummyModels.ShuffledPermutes | models.py:42 | A shuffle only reorders. |
| RummyModels.PermutationKeepsDistinct | models.py:38-45 | Reordering distinct cards keeps them distinct. |
| RummyModels.NewDeckIsFullDeck | models.py:38-45 | A new deck holds 52 different cards, every suit and rank among them. |
| RummyModels.Deck.constructor | models.py:38-45 | The queue holds the shuffled deck in order. |
| RummyModels.Deck.Shuffle | models.py:47-53 | The queue is drained in order, shuffled and refilled, so it holds the same cards. |
| RummyModels.Deck.Draw | models.py:55-56 | The front card, or None from an empty deck. |
| RummyModels.Deck.Deal | models.py:58-63 | The first min(n, size) cards in queue order, none for n ≤ 0; they leave the deck. |
| RummyModels.FirstIndex | models.py:74-75 | The first position holding an equal card. |
| RummyModels.RemoveFirstCutsFirst | models.py:75 | `list.remove` takes out exactly the first equal card, keeping the others in order. |
| RummyModels.Hand.constructor | models.py:67-68 | A new hand is empty. |
| RummyModels.Hand.AddCard | models.py:70-71 | The card is appended. |
| RummyModels.Hand.RemoveCard | models.py:73-77 | Answers whether an equal card was there. If one was, the first equal card is removed; if not, the hand is unchanged. |
| RummyModels.Player.constructor | models.py:84-86 | A player has the name and a new empty hand. |
| RummyModels.Player.DrawCard | models.py:88-89 | The card is added to the hand. |
| RummyModels.Player.DiscardCard | models.py:91-92 | `remove_card` on the hand. |
| RummySpaces.CardSpace.constructor | spaces.py:6-7 | A new space has no hands. |
| RummySpaces.CardSpace.AddNewHand | spaces.py:9-10 | The hand is appended; the others stay. |
| RummySpaces.CardSpace.RemoveHand | spaces.py:12-13 | The hand at the Python index is removed; the others keep their order. |
| RummySpaces.CardSpace.MixHands | spaces.py:19-20 | Hand idx is extended by the new hand's cards in order, or doubled when it is the same hand. |
| RummySpaces.CardSpace.GetHand | spaces.py:23-24 | The hand object at the Python index. |
| RummySpaces.CardSpace.GetCardFromHand | spaces.py:26-27 | The card is removed from that hand and returned. |
| RummySpaces.CardSpace.AddCardToHand | spaces.py:29-30 | The card is appended to that hand. |
| Marble.CreateBoard | game.py:12-20 | A size × size grid. Corner cells outside the middle band in both directions are 2, the centre is 0, and the rest are 1. |
| Marble.CentreIsHole | game.py:14-19 | The centre lies inside the middle band, so the corner loop keeps its 0. |
| Marble.CellKinds | game.py:13-19 | A cell is 0 exactly at the centre, 2 exactly in a corner block, and 1 otherwise. |
| Marble.CornersSymmetric | game.py:16-19 | The corner blocks are symmetric under mirroring either axis and under transposition. |
| Marble.OddBoardSymmetric | game.py:13-19 | With an odd size, the whole grid is mirror-symmetric. |
| Marble.EvenBoardAsymmetric | game.py:14 | With an even size, the hole sits below the middle, so the grid is not symmetric. |

## Left out

- Rendering and input: pygame, `hit_test`, the UI module, `print_hand`, `print_space`, `Move.__repr__` and the peg game's `check_movement`, `move_marble` and `render` stubs.
- Timing and printing in `find_best_move` and `find_best_move_graph`: the models return the move's text.
- Randomness is a parameter, as follows:
  - `shuffle` in `create_deck` is the permutation of the deck passed to the game's constructor;
  - the prototype's `random.shuffle` is its sequence of swap draws;
  - `random.choice` is an arbitrary member of the list;
  - `random.uniform(0, 1.0)` is an arbitrary real in [0, 1).
- Scores are exact reals, not floating point, and `-float("inf")` is a separate value. The point constants `FOUNDATION_CARD_POINTS`, `REVEALED_CARD_POINTS` and `EMPTY_PILE_POINTS` come from the configuration and are parameters.
- `StockPile.recycle_from`, which `reset_stock` calls, is a parameter of the environment. Nothing is proved about `reset_stock`, and card conservation excludes it.
- `data_structures/waste.py` is not part of this model. The waste is a stack of cards whose `pop` on an empty pile gives None; a name command that would then read `.suit` is excluded by `CanPerform`.
- Card objects are values. Where the source sets `revealed` on a card object shared by two piles, the model changes only the copy in the pile the code names.
- `SolitaireGame` holds its piles as sequence fields, not pile objects. The piles' own methods are modelled in `Foundation`, `Tableau` and `Stock`.
- `int()` on move names accepts ASCII digits and an optional leading "-" or "+". Whitespace, underscores and non-ASCII digits, which Python also accepts, are not modelled.
- `game_logic/player.py` is not part of this model; it depends on a `Hand` class that is not shown.
- `Move.__repr__` and the card part of the `describe_move` texts: the text is the same up to the card's `repr`, which `Cards.CardRepr` models.
- `get_rank` and `get_suit` of both card classes are the datatype fields `rank` and `suit`.
- Solitaire.AttemptMove: requires the selected column and target to exist, as `hit_test` guarantees. A selected `card_index` outside the column makes `_is_valid_Board_sequence` answer False, which is modelled.
- Solitaire.ApplyNamedMove: requires the name not to raise, and the popped pile and named columns to exist. The "tX->tY" destination is read as intended; see Findings.
- Marble.CreateBoard: requires a positive size. numpy raises for a negative size, and an empty grid has no centre cell to set.
- RummyCards.Hand.GetCard, RummyCards.Hand.ExtractCard: require an index in Python's range; the source raises IndexError outside it, which is not modelled.
- RummySpaces.CardSpace.RemoveHand, RummySpaces.CardSpace.MixHands, RummySpaces.CardSpace.GetHand, RummySpaces.CardSpace.GetCardFromHand, RummySpaces.CardSpace.AddCardToHand: require the hand index (and for `get_card_from_hand` the card index) in Python's range; the source raises IndexError outside it, which is not modelled.
- GraphSearch.SearchGraph: completeness is stated for the root's moves only. That every offered move from every expanded position (depth at most `max_depth`) reaches a visited key is not stated.
- TreeSearch.SearchBestMove: the `alpha` argument is only passed down and updated; it never prunes or changes a result, so it is not modelled.

## Findings

| source | as written | input that shows it | evidently intended | confidence | as-written member | corrected member |
|---|---|---|---|---|---|---|
| main.py:120 | `dst = int(name[4])` reads the destination of a "tX->tY" move name from index 4 | "t0->t1": index 4 is the letter 't', so `int` raises ValueError | `int(name[5])`, the digit after the second 't', as the comment at main.py:90 documents | high; not executed | MoveNames.ColumnToColumnNameRaises | MoveNames.DecodeName |

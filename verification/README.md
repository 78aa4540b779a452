# Verified models of the course projects

Dafny models of the algorithmic parts of this archive of course projects, with proofs of what they are for.
The parts are independent; modules group by project:

- **Domestic matches** (`Paths`, `Digraph`, `TopoSort`, `TugaNet`): the longest chain of strongly connected
  components of a directed graph, by two iterative depth-first passes over stacks with duplicate entries.
- **Marble slabs** (`SuperMarble`): the most valuable guillotine cutting, by a matrix of which half is filled and mirrored.
- **Pipe puzzle** (`PipePiece`, `PipeBoard`, `PipeCount`, `PipeSearch`, `PipeGrid`, `PipeSpread`, `PipeMania`,
  `PipeSolver`): pieces packed in bits, propagation that locks forced cells, a leak counter kept incrementally, the
  goal test, branching, and the depth-first search over states. Boards are any height by any width.
- **Event manager** (`Locks`, `Seats`, `Reservation`, `ReservationInvariant`, `ReservationRuns`, `EventList`, `Pools`): any
  number of threads that reserve and show the seats of an event, create and look up events in a list whose last
  lock is handed over, and execute a file of commands in pools that barriers separate. Each is a state machine
  over the steps of the threads; a run is any interleaving. Locks are those of pthread_rwlock in POSIX.1-2017:
  one writer or any number of readers.
- **Spreadsheet** (`SheetModel`, `SheetLaws`, `SheetStorage`): contents, observers and ranges with a cached value and a dirty
  flag. `SheetLaws` says what the values that are read mean.
- **Cache** (`CacheAddress`, `CacheModel`, `Cache`): two levels of write-back cache over a memory; the second level is
  direct mapped (`task4.2`) or two-way set associative (`task4.3`). Sizes are symbolic: the number of first-level
  lines divides the number of second-level sets, as it does in both programs (`Cache.ProgramSizes`).
- **Session queue** (`SessionQueue`): a ring buffer as a monitor with two condition variables, with spurious
  wake-ups as in pthread_cond_wait of POSIX.1-2017.
- **Mastermind** (`GameFile`, `Mastermind`, `GameServer`, `Trials`): the field reader, printer and parser of game files,
  the scoring of a guess, the server's handling of a TRY, and the protocol over unreliable datagrams.
- **Minesweeper** (`Minesweeper`): the recursive clearing of a field, and winning.

Code that works in place is a class or a method over arrays, proved against a specification. Ghost parameters
(`rank`, `topo`, `items`, ...) carry what a proof needs and the program does not have. A `rank` shows that a sheet
has no cycle; `SheetModel.RankIrrelevant` says that the choice does not matter.

Where code and comments disagree, the model follows the code:

- `pipe.py:350-353` bars two pieces of type F from facing each other. On a board that is just two such pieces this
  refuses the solution (`PairRefused`, `PairSolvable`); on every other board it loses none, and
  `PipeSearch.LosesOnlyPairs` says so in both directions. Propagation keeps the exact set of solutions on every board,
  but a contradiction it reports means "no solution, or this board". `PipeSolver.Solve` says what the program then
  finds. When there is nothing to find, line 638 fails on the missing node.
- `pipe.py:324-327` names the bits right, left, up, down; the tables and the rest of the file use right, up, left, down.
- `SuperMarble.cpp:63` assumes that the horizontal side is the bigger one; `main` makes it the smaller or equal one
  (lines 99-100), and the loops need that.
- `P2.py:863` calls a game won when all cells without mines are cleared; the code also wants every mined cell not
  cleared.
- `game.cpp:193` notes the time of a trial in memory, line 533 writes a later reading of the clock to the file. The
  game that is parsed back has the noted time exactly under `GameServer.SameReading` (`WhenReread`, `LiveGame.Guess`);
  `WhenDiffers` gives a clock on which it has another.

## Model

| member | source | states |
|---|---|---|
| Digraph.ChainComponentsDistinct | 2nd year/ASA/P2/TugaNet.cpp:75-79 | on a path of the condensation an earlier node reaches a later one and never the other way round: the condensation is acyclic, so its longest path exists |
| TopoSort.Finish | 2nd year/ASA/P2/TugaNet.cpp:18-23 | the gray node on top of the stack becomes black and goes to the front of the listing; the search invariant survives, although the stack holds duplicate entries |
| TopoSort.Discover | 2nd year/ASA/P2/TugaNet.cpp:26-29 | a white node on top becomes gray and its unvisited successors are pushed; every gray node keeps an entry above which lie only its descendants |
| TopoSort.DFSTopoVisit | 2nd year/ASA/P2/TugaNet.cpp:12-31 | one visit: afterwards no node is gray, everything newly reachable from `u` is listed, and every component has a node listed no later than any node it reaches |
| TopoSort.DFSTopo | 2nd year/ASA/P2/TugaNet.cpp:37-43 | lists every node exactly once; an edge `u -> v` where `v` does not reach `u` goes forward; every component has a node listed no later than any node it reaches |
| TugaNet.EntryIsLongest | 2nd year/ASA/P2/TugaNet.cpp:60-71 | the largest distance plus one over the edges that enter the component from earlier ones is the length of the longest chain that ends in the component |
| TugaNet.ComponentIsScope | 2nd year/ASA/P2/TugaNet.cpp:53-64 | from the first unvisited node of the listing the reversed edges lead, among unvisited nodes, to its own component only |
| TugaNet.VisitNode | 2nd year/ASA/P2/TugaNet.cpp:54-70 | an unvisited node of the scope joins the component and takes its number; the best entry distance accounts for every edge that enters it from an earlier component, and its unvisited predecessors are stacked |
| TugaNet.VisitScope | 2nd year/ASA/P2/TugaNet.cpp:51-72 | the traversal loop numbers exactly what is left of the scope of `u`; the distance it leaves is the maximum of 0 and the distances plus one of the components with an edge into it |
| TugaNet.DFSMaxJumpsVisit | 2nd year/ASA/P2/TugaNet.cpp:49-73 | marks exactly the strongly connected component of `u`, keeps the distances of the others, and returns the number of edges of the longest chain of components that ends there |
| TugaNet.MaxJumps | 2nd year/ASA/P2/TugaNet.cpp:80-95 | the number of edges of the longest path of the condensation: some chain of components has that length and none is longer |
| TugaNet.EdgesOfGraph | 2nd year/ASA/P2/TugaNet.cpp:101-108 | the graph that is read has exactly the edges of the list |
| TugaNet.LongestJumps | 2nd year/ASA/P2/TugaNet.cpp:97-113 | the whole program, for every finite directed graph given as a list of edges: the answer is the number of edges of the longest path of its condensation |
| SuperMarble.BestSymmetric | 2nd year/ASA/P1/SuperMarble.cpp:85-86 | turning the slab by a quarter does not change the best value, which is why half the matrix may be mirrored |
| SuperMarble.BestOfChoices | 2nd year/ASA/P1/SuperMarble.cpp:75-84 | a value that some cutting attains and that covers the item and the cuts in one half of each side beats every cutting tree: trying half the cuts loses nothing |
| SuperMarble.BestCut | 2nd year/ASA/P1/SuperMarble.cpp:75-83 | the two inner loops find the largest sum of two opposite strips among the cuts they try |
| SuperMarble.FillEntry | 2nd year/ASA/P1/SuperMarble.cpp:74-87 | filling one entry and, inside the square part, its mirror image keeps every filled entry equal to the optimum over all cutting trees |
| SuperMarble.PlaceItems | 2nd year/ASA/P1/SuperMarble.cpp:66-71 | before any cut an entry holds the largest value of an item of exactly its dimensions, 0 when there is none |
| SuperMarble.CalculateMaximumValue | 2nd year/ASA/P1/SuperMarble.cpp:65-91 | the value is attained by some guillotine cutting tree with rotatable, repeatable items and no tree is worth more |
| SuperMarble.Solve | 2nd year/ASA/P1/SuperMarble.cpp:93-112 | the same for the slab as it was given: turned first when it is wider than tall, with every orientation of an item that fits kept and the others dropped |
| PipePiece.ConnectionsLeft | 2nd year/AI/pipe.py:338-340 | never negative, and 0 exactly when every opening of the piece is answered by the nibble of its side |
| PipePiece.LeftBySides | 2nd year/AI/pipe.py:323-336 | the packed sums count, side by side, the openings that are not answered |
| PipePiece.InvertBits | 2nd year/AI/pipe.py:247-248 | inverting swaps opposite sides, bit for bit |
| PipePiece.TableTurns | 2nd year/AI/pipe.py:252-255 | the openings turn with the piece: F opens to its direction only, B everywhere but opposite to it, V to it and to the next side around, L to it and opposite to it |
| PipePiece.TableIsTurned | 2nd year/AI/pipe.py:252-255 | the openings that a piece can be given by pointing it are exactly the four turns of its type |
| PipePiece.LettersMean | 2nd year/AI/pipe.py:373-398 | what a text like `VB` means, side by side: D right, C up, E left, B down, H and V for straight pieces |
| PipePiece.TextBack | 2nd year/AI/pipe.py:373-438 | a printed piece is read back with its type and its openings, without lock and mark |
| PipePiece.TextTellsOpenings | 2nd year/AI/pipe.py:401-438 | two pieces are printed alike exactly if they have the same openings, so a solved board is printed as its solution |
| PipePiece.PointKeeps | 2nd year/AI/pipe.py:320-321 | pointing sets the direction to the given one; type, lock and mark stay |
| PipePiece.LockKeeps | 2nd year/AI/pipe.py:293-294 | locking keeps the type, the openings and the mark |
| PipePiece.MarkKeeps | 2nd year/AI/pipe.py:299-306 | marking keeps type, openings and lock; unmarking undoes marking |
| PipePiece.BarSingleOpenings | 2nd year/AI/pipe.py:350-353 | closes exactly the sides whose neighbour has one opening |
| PipePiece.Infer | 2nd year/AI/pipe.py:342-371 | returns, in increasing order, exactly the directions whose openings answer every locked neighbour that points here and avoid every side that is missing, refused by a locked neighbour or would join two pieces of type F; a straight piece tries two |
| PipeBoard.FitsByBoard | 2nd year/AI/pipe.py:355-370 | the masks rule out exactly the directions that the board around the cell rules out |
| PipeBoard.FsDoNotFace | 2nd year/AI/pipe.py:350-353 | on a board of more than two cells no leak-free single-component solution joins two pieces of type F, so the rule that bars it loses nothing |
| PipeBoard.SolutionFits | 2nd year/AI/pipe.py:342-371 | the openings that a solution gives a cell fit the surroundings of the cell, on every board but two facing pieces of type F |
| PipeBoard.LockedSolutions | 2nd year/AI/pipe.py:67-68 | the solutions after a cell is pointed and locked are the earlier ones that agree with the lock |
| PipeBoard.SolutionByTurns | 2nd year/AI/pipe.py:252-255 | on a board without locks the solutions are the choices of one turn of each piece that leak nowhere and hang together; the table of openings does not matter |
| PipeCount.NothingLeft | 2nd year/AI/pipe.py:217-220 | the full recount is 0 exactly when no opening of the board leaks |
| PipeCount.RecountAround | 2nd year/AI/pipe.py:67-69 | replacing one piece changes the full recount by the recount of the cell and its neighbours alone |
| PipeCount.LeftAround | 2nd year/AI/pipe.py:486-502 | the leaks around a cell are those of the cell and of its four neighbours, each counted once |
| PipeSearch.ForcedLock | 2nd year/AI/pipe.py:106-107 | a cell with one direction left loses no solution by being locked that way, and the board stays consistent |
| PipeSearch.NoOffer | 2nd year/AI/pipe.py:116-117 | where no direction is left there is no solution (or the board is two facing pieces of type F) |
| PipeSearch.BranchesShare | 2nd year/AI/pipe.py:549-566 | branching over the directions of a cell splits the solutions among the branches: each solution is in exactly one |
| PipeSearch.CorneredOneOffer | 2nd year/AI/pipe.py:597-601 | an unlocked cell whose neighbours are all locked has at most one direction left |
| PipeSearch.AllLocked | 2nd year/AI/pipe.py:609-611 | once every cell is locked a solution exists only if the board as shown is leak-free and in one component |
| PipeSearch.ShownIsAllowed | 2nd year/AI/pipe.py:609-611 | a leak-free board in one component is a solution of itself: it obeys every piece and lock |
| PipeSearch.PairRefused | 2nd year/AI/pipe.py:350-353 | on a board of two pieces of type F side by side every direction of both cells is refused |
| PipeSearch.PairSolvable | 2nd year/AI/pipe.py:350-353 | that board has a solution: the one family of boards on which propagation reports a contradiction wrongly |
| PipeSearch.LosesOnlyPairs | 2nd year/AI/pipe.py:342-371 | on a board without locks, inferring offers every cell the openings of every solution if and only if the board is not two facing pieces of type F |
| PipeGrid.Board.SetValue | 2nd year/AI/pipe.py:449-450 | one cell of the array changes, all others stay |
| PipeGrid.Board.GetNeighbourOrientations | 2nd year/AI/pipe.py:452-462 | each nibble holds the inverted openings of the neighbour on that side, 0 past the border |
| PipeGrid.Board.GetNeighbourInfo | 2nd year/AI/pipe.py:464-484 | the three words describe the inverted openings of the neighbours, which of them are locked and which are missing |
| PipeGrid.Board.ConnectionsLeftInNeighbourhood | 2nd year/AI/pipe.py:486-502 | the leaks of the cell and of its neighbours on the board |
| PipeSpread.SpreadEnd | 2nd year/AI/pipe.py:573-592 | when nothing waits any more, the number of marked cells is the size of the board exactly if the pipes form one component |
| PipeSpread.MarkConnected | 2nd year/AI/pipe.py:573-591 | on a leak-free board the walk stays on the grid and counts all cells exactly when the pipes form one component |
| PipeSpread.UnmarkAll | 2nd year/AI/pipe.py:593-595 | takes every mark off: the board is what it was before the walk |
| PipeMania.PipeManiaState.GoToNextCoord | 2nd year/AI/pipe.py:40-45 | takes a cell out of the highest group that has one; with empty groups nothing changes |
| PipeMania.PipeManiaState.ReachedEnd | 2nd year/AI/pipe.py:47-51 | true exactly when no cell waits in any group |
| PipeMania.PipeManiaState.DeepCopy | 2nd year/AI/pipe.py:53-57 | a copy with the same board, counters, coordinate and groups, sharing no mutable part |
| PipeMania.PipeManiaState.PointAndLock | 2nd year/AI/pipe.py:59-87 | only the cell changes, `left` is again the full recount, the cell leaves its group and each unlocked neighbour moves one group up |
| PipeMania.PipeManiaState.InferAt | 2nd year/AI/pipe.py:92-95 | exactly the directions that the board still offers the cell |
| PipeMania.PipeManiaState.LockProcessing | 2nd year/AI/pipe.py:97-118 | the worklist ends; it only locks forced cells, so the set of solutions is kept; a reported contradiction means there is none; no unlocked cell is left surrounded by locked ones |
| PipeMania.PipeManiaState.BfsLockProcessing | 2nd year/AI/pipe.py:97-118 | the worklist from one cell keeps the invariant of the state, locks forced cells only and reports a contradiction only when there is nothing to find |
| PipeMania.PipeManiaState.NeighbourhoodBfsLockProcessing | 2nd year/AI/pipe.py:143-172 | the same from the neighbours of a locked cell; the groups only shrink |
| PipeMania.PipeManiaState.Preprocess | 2nd year/AI/pipe.py:205-213 | propagating from every border cell keeps the invariant and the exact set of solutions |
| PipeMania.PipeManiaState.IsSingleScc | 2nd year/AI/pipe.py:572-596 | true exactly when the pipes of a leak-free board form one component; on false the board is as before, on true every cell is marked |
| PipeMania.PipeManiaState.LockAndGo | 2nd year/AI/pipe.py:561-566 | pointing the current cell and propagating keeps the state sound: the solutions are those of the tried branch, and fewer cells wait |
| PipeMania.PipeManiaState.Advance | 2nd year/AI/pipe.py:598-608 | one round of the goal test loses no solution; it goes on only after fewer cells wait |
| PipeMania.PipeManiaState.Settle | 2nd year/AI/pipe.py:598-608 | the loop ends and only locks forced cells, so the solutions are kept; a board without leaks is not touched |
| PipeMania.PipeManiaState.TestShown | 2nd year/AI/pipe.py:609-611 | true exactly when the board as shown is one of its own solutions; on false the board is as before |
| PipeMania.PipeManiaState.GoalTest | 2nd year/AI/pipe.py:568-611 | true only for a board that shows a solution of the board it was given, and always for a board that is one already; false keeps every solution, and with no cell left to branch on it means there is none |
| PipeMania.PipeManiaState.Actions | 2nd year/AI/pipe.py:549-554 | the directions offered for the current cell, none once no cell waits |
| PipeMania.PipeManiaState.Result | 2nd year/AI/pipe.py:556-566 | the child of an action is sound and holds exactly the solutions of that branch, and fewer cells wait in it; the parent stays as it is |
| PipeMania.PipeManiaState.ParseInstance | 2nd year/AI/pipe.py:216-230 | the first state counts every leak once; corners wait in group 2, other border cells in group 1, inner cells in group 0, and nothing is locked |
| PipeMania.EndOfSearch | 2nd year/AI/pipe.py:609-611 | a state with no cell waiting that is not itself a solution has no solution |
| PipeMania.NoBranchLost | 2nd year/AI/pipe.py:549-566 | if the children are the offered branches with forced cells locked further, something solves a state exactly when it solves one of its children |
| PipeSolver.Branched | 2nd year/AI/pipe.py:625-628 | replacing the board on top of the frontier by its branches keeps the solutions of the first board: each is a solution of some board on the frontier, and the frontier holds no others |
| PipeSolver.Cheaper | 2nd year/AI/pipe.py:621-628 | a state that is branched on costs more than all its children together, which bounds the search |
| PipeSolver.Expand | 2nd year/AI/pipe.py:549-566 | one child for each action, each a branch of the state, no two sharing a mutable part, and in each fewer cells wait |
| PipeSolver.SortByLocked | 2nd year/AI/pipe.py:613-627 | the same children, ordered by how many cells are locked |
| PipeSolver.HeuristicDepthFirstTreeSearch | 2nd year/AI/pipe.py:618-629 | the search ends; what it returns shows a solution of the board it was given, and it returns nothing only if there is no solution (or the board is two facing pieces of type F that do not face each other as shown) |
| PipeSolver.Solve | 2nd year/AI/pipe.py:631-638 | the whole program, for every board of unlocked pieces: it ends and finds a solution if and only if one exists, except on two facing pieces of type F, where it succeeds exactly when the board shows the solution from the start |
| Seats.SeatIndexInjective | 2nd year/OS/P1/operations.c:65-67 | different seats of a hall have different indices |
| Seats.IndexOrder | 2nd year/OS/P1/operations.c:65-67 | a seat has the smaller index exactly if it comes first row by row, from left to right |
| Seats.SeatOfIndex | 2nd year/OS/P1/operations.c:65-67 | every index of the hall belongs to a seat |
| Seats.LinesShowSeats | 2nd year/OS/P1/operations.c:226-238 | the separators put one line for each row, and the value of each seat in its row and column |
| Seats.Indices | 2nd year/OS/P1/operations.c:154-165 | the indices of the requested seats in order; none exactly when some seat is outside the hall |
| Seats.Sort | 2nd year/OS/P1/operations.c:166 | a sorted permutation of the indices |
| ReservationInvariant.Recorded | 2nd year/OS/P1/operations.c:182-198 | an operation that answers as it would alone may be added to the history: a successful reserve sets all its seats and nothing else |
| ReservationInvariant.StepCommit | 2nd year/OS/P1/operations.c:168-182 | when the loop has all its locks, every seat is free in the history and the reservation takes effect as a whole |
| ReservationInvariant.StepClear | 2nd year/OS/P1/operations.c:183-188 | a rolled-back seat is cleared while its lock is held, so nobody sees it |
| ReservationInvariant.NextKeeps | 2nd year/OS/P1/operations.c:150-256 | whichever thread moves next, locks, seats, history and counter stay consistent |
| ReservationRuns.Linearizable | 2nd year/OS/P1/operations.c:135-256 | for any number of threads and any interleaving, every recorded outcome is the one its operation gives when the history is run one operation at a time; with nothing under way the seats are what that history leaves |
| ReservationRuns.RecordedOnce | 2nd year/OS/P1/operations.c:135-256 | a finished call stands in the history exactly once, at a point between its start and its end |
| ReservationRuns.RefusedByOwner | 2nd year/OS/P1/operations.c:173-177 | a reserve is refused only for a seat that an earlier successful reserve asked for |
| ReservationRuns.ReservedStays | 2nd year/OS/P1/operations.c:179-190 | a seat once reserved is never written again, not even for a moment |
| ReservationRuns.ShownWhole | 2nd year/OS/P1/operations.c:226-243 | a show sees the seats of the history at one moment between its start and its end: no part of a reservation and no rolled-back one |
| ReservationRuns.SeatOwner | 2nd year/OS/P1/operations.c:150-243 | after a sequential history a seat carries the id of the one reserve that got exactly that seat, 0 if none did |
| ReservationRuns.ShownSeats | 2nd year/OS/P1/operations.c:201-255 | a finished show prints, row by row, in the place of each seat the id of the reserve that got it, at one moment between its start and its end |
| ReservationRuns.CounterExact | 2nd year/OS/P1/eventlist.c:67-75 | the reservation counter is the number of successful reserves plus the attempts under way |
| ReservationRuns.WaitsAbove | 2nd year/OS/P1/operations.c:166-173 | a thread waits only for a seat above all those it holds |
| ReservationRuns.DeadlockFree | 2nd year/OS/P1/operations.c:168-190 | while an operation is under way some thread can move, even if readers queue up behind waiting writers |
| ReservationRuns.OthersStand | 2nd year/OS/P1/operations.c:150-243 | a step moves one thread only |
| ReservationRuns.StepsRunOut | 2nd year/OS/P1/operations.c:150-243 | every operation ends after finitely many of its own steps |
| ReservationRuns.RunsEnd | 2nd year/OS/P1/operations.c:150-243 | without new calls no run is longer than the steps its operations have left, whatever the scheduler does, and when nobody can move every operation has answered |
| EventList.NextKeeps | 2nd year/OS/P1/eventlist.c:90-183 | whichever creator or lookup moves next, list, tail, locks and what each thread knows stay consistent |
| EventList.ListStaysSound | 2nd year/OS/P1/eventlist.c:90-119 | in every reachable state ids are distinct, the links lead through the nodes in order, at most one thread appends, the tail is the last node whenever none does, and no step follows a null pointer |
| EventList.GrowsAtEnd | 2nd year/OS/P1/eventlist.c:108-116 | a step changes no linked node but the last, and that one only by linking a new node to it |
| EventList.MissedWasAbsent | 2nd year/OS/P1/eventlist.c:139-183 | a lookup misses an id only if no event had it when the lookup began; a hit and a refused creation name a node with that id |
| EventList.DeadlockFree | 2nd year/OS/P1/eventlist.c:160-183 | while a thread works some thread can move, even if readers queue up behind waiting writers: itself, one that holds the lock it waits for, or one that waits for the same lock |
| EventList.StepsRunOut | 2nd year/OS/P1/eventlist.c:139-183 | each step takes a lookup or a creation nearer to its end, however far the list grows |
| EventList.RunsEnd | 2nd year/OS/P1/eventlist.c:90-183 | without new calls no run is longer than a bound in the number of nodes and threads, and when nobody can move every lookup and creation has its result |
| Pools.ReadStep | 2nd year/OS/P1/batch.c:138-189 | reading a command keeps every barrier: whatever an earlier pool was to execute has been executed |
| Pools.NextKeeps | 2nd year/OS/P1/batch.c:132-201 | whichever worker or the main thread moves next, input lock, exit status, pools and history stay consistent |
| Pools.ReadInOrder | 2nd year/OS/P1/batch.c:138-143 | when a command is read, exactly the commands before it in the file have been read, and the pool is the one its barriers call for |
| Pools.DoneOnce | 2nd year/OS/P1/batch.c:144-184 | a command is executed at most once, after it was read |
| Pools.BarrierSeparates | 2nd year/OS/P1/batch.c:186-189 | for any number of threads and pools, every command before a barrier has been executed before any command after it is read |
| Pools.NothingAfterEnd | 2nd year/OS/P1/batch.c:195-198 | the end of the file is met once, after every command was read, and nothing is read after it |
| Pools.SomeoneMoves | 2nd year/OS/P1/thread_pool.c:66-78 | before the main thread has finished, it or some worker can move |
| Pools.RunsEnd | 2nd year/OS/P1/batch.c:262-273 | no run is longer than a bound in the number of commands and threads, whatever the scheduler does |
| Pools.JobDone | 2nd year/OS/P1/batch.c:262-273 | when nobody can move any more, the whole file has been read and executed, by one pool more than it has barriers |
| SheetModel.AggregateKind | 2nd year/OOP/xxl-core/src/xxl/cells/IntegerRange.java:33-44 | a range of numbers never has a text and a range of texts never a number, so asking for the other kind gives nothing |
| SheetModel.EvalSame | 2nd year/OOP/xxl-core/src/xxl/cells/Cell.java:21-34 | a cell that does not follow from the changed one evaluates as before |
| SheetModel.RankIrrelevant | 2nd year/OOP/xxl-core/src/xxl/cells/Cell.java:21-34 | plain evaluation does not depend on the order chosen to show that the sheet has no cycle |
| SheetLaws.SeenPlain | 2nd year/OOP/xxl-core/src/xxl/cells/Cell.java:21-34 | a literal is seen as what it is, a reference as what the other cell shows, an empty position as nothing |
| SheetLaws.OperandPlain | 2nd year/OOP/xxl-core/src/xxl/cells/IntegerBinary.java:26-36 | the number of an operand is that of the literal, or what the referenced cell shows |
| SheetLaws.SeenBinary | 2nd year/OOP/xxl-core/src/xxl/parser/Parser.java:239-274 | ADD, SUB, MUL and DIV: the result plus the second operand of SUB is the first, and so on; DIV drops the fraction; there is a number exactly if both operands have one and nothing is divided by zero |
| SheetLaws.SeenNumbers | 2nd year/OOP/xxl-core/src/xxl/cells/AverageRange.java:20-32 | AVERAGE is the sum of the cells over their number without its fraction, PRODUCT their product, and both need a number in every cell |
| SheetLaws.SumSplits | 2nd year/OOP/xxl-core/src/xxl/cells/AverageRange.java:20-29 | the sum over two intervals one after the other is the sum of their sums |
| SheetLaws.ProductSplits | 2nd year/OOP/xxl-core/src/xxl/cells/ProductRange.java:20-30 | the product over two intervals one after the other is the product of their products |
| SheetLaws.SeenConcat | 2nd year/OOP/xxl-core/src/xxl/cells/ConcatRange.java:20-28 | CONCAT joins the texts of its cells in order |
| SheetLaws.JoinedSplits | 2nd year/OOP/xxl-core/src/xxl/cells/ConcatRange.java:20-28 | the text of two intervals one after the other is that of the first and then that of the second |
| SheetLaws.SeenCoalesce | 2nd year/OOP/xxl-core/src/xxl/cells/CoalesceRange.java:20-28 | COALESCE is the first text of its cells, empty when there is none |
| SheetStorage.StaleUnseen | 2nd year/OOP/xxl-core/src/xxl/cells/IntegerRange.java:36-39 | clearing the flag before the range runs is harmless: the cells it reads do not use the range |
| SheetStorage.CachesSurvive | 2nd year/OOP/xxl-core/src/xxl/cells/Cell.java:41-58 | once the flag of every range that follows from the changed cell is raised, every range with a clear flag holds its current value, also when several cells share one content |
| SheetStorage.FirstReader | 2nd year/OOP/xxl-core/src/xxl/cells/Cell.java:118-121 | what follows from a cell follows from one of its direct observers, so notifying them in turn reaches everything |
| SheetStorage.Storage.NewRange | 2nd year/OOP/xxl-core/src/xxl/cells/Range.java:21-27 | a new range starts with a clear flag and no value, and the invariant of the sheet holds on |
| SheetStorage.Storage.Get | 2nd year/OOP/xxl-core/src/xxl/storage/TreeStorage.java:30-38 | the stored cell, created empty when there is none; nothing else changes |
| SheetStorage.Storage.DeleteIfFree | 2nd year/OOP/xxl-core/src/xxl/storage/TreeStorage.java:59-66 | drops a cell exactly when it has neither content nor observers |
| SheetStorage.Storage.AddObserver | 2nd year/OOP/xxl-core/src/xxl/cells/Cell.java:101-104 | adds the observer unless it is there already |
| SheetStorage.Storage.RemoveObserver | 2nd year/OOP/xxl-core/src/xxl/cells/Cell.java:112-114 | removes that observer and no other |
| SheetStorage.Storage.Initialize | 2nd year/OOP/xxl-core/src/xxl/cells/Binary.java:50-53 | the cell observes exactly what the content reads, through both operands, references and ranges |
| SheetStorage.Storage.InitializeRange | 2nd year/OOP/xxl-core/src/xxl/cells/Range.java:54-57 | every cell of the interval gets the observer; missing cells are created |
| SheetStorage.Storage.Destroy | 2nd year/OOP/xxl-core/src/xxl/cells/Binary.java:64-67 | the cell observes none of what the content read; cells left without content and observers are gone |
| SheetStorage.Storage.DestroyRange | 2nd year/OOP/xxl-core/src/xxl/cells/Range.java:61-67 | the same for every cell of an interval |
| SheetStorage.Storage.Observe | 2nd year/OOP/xxl-core/src/xxl/cells/ReferenceContent.java:82-84 | the referenced cell, created if need be, gets the observer |
| SheetStorage.Storage.Leave | 2nd year/OOP/xxl-core/src/xxl/cells/ReferenceContent.java:88-92 | the referenced cell loses the observer and goes when nothing else needs it |
| SheetStorage.Storage.UpdateContent | 2nd year/OOP/xxl-core/src/xxl/cells/Range.java:47 | raises the flag of every range in the content and changes no cached value |
| SheetStorage.Storage.Update | 2nd year/OOP/xxl-core/src/xxl/cells/Cell.java:127-130 | raises the flag of every range in every cell that follows from this one, and ends on every acyclic sheet |
| SheetStorage.Storage.NotifyObservers | 2nd year/OOP/xxl-core/src/xxl/cells/Cell.java:118-121 | every direct reader is reached, and everything that follows from it |
| SheetStorage.Storage.Insert | 2nd year/OOP/xxl-core/src/xxl/storage/TreeStorage.java:42-45 | the position holds the content, no other position changes, observer lists are again exactly the direct dependencies, and no stale cache survives |
| SheetStorage.Storage.Delete | 2nd year/OOP/xxl-core/src/xxl/storage/TreeStorage.java:49-55 | the position is empty, no other changes, and no stale cache survives |
| SheetStorage.Storage.GetValue | 2nd year/OOP/xxl-core/src/xxl/cells/Cell.java:21-34 | the value of plain recursive evaluation; caches met on the way are brought up to date, nothing else changes |
| SheetStorage.Storage.GetContent | 2nd year/OOP/xxl-core/src/xxl/cells/IntegerBinary.java:26-36 | the same for a content inside a cell: no value when an operand has none or the divisor is zero |
| SheetStorage.Storage.GetRange | 2nd year/OOP/xxl-core/src/xxl/cells/IntegerRange.java:34-44 | the current value of the range, recomputed only when its flag is raised |
| SheetStorage.Storage.Execute | 2nd year/OOP/xxl-core/src/xxl/cells/AverageRange.java:20-32 | the function of the range over the plain values of its cells; one cell without a number leaves AVERAGE and PRODUCT without a result |
| SheetStorage.Storage.Read | 2nd year/OOP/xxl-core/src/xxl/storage/TreeStorage.java:21-26 | reading any position gives the value of plain recursive evaluation and keeps the invariant, without creating a cell there |
| SheetStorage.Storage.Run | 2nd year/OOP/xxl-core/src/xxl/storage/TreeStorage.java:29-66 | every run of new ranges, inserts, deletes and reads over acyclic sheets answers as plain evaluation of the contents would |
| CacheAddress.RecuperateInverts1 | 3rd year/CO/lab1/task4.2/l2cache.c:194-206 | the address rebuilt from a tag and a conflicting address has that tag and the index of the conflicting address, in the first level |
| CacheAddress.RecuperateInverts2 | 3rd year/CO/lab1/task4.3/l2_2wcache.c:196-208 | the same in the second level, direct mapped or two-way |
| CacheAddress.SameSetSameLine | 3rd year/CO/lab1/task4.3/l2_2wcache.c:136-156 | blocks of one second-level set share one first-level line, because the number of lines divides the number of sets |
| CacheAddress.LimitExact | 3rd year/CO/lab1/task4.3/l2_2wcache.c:283-298 | an address is served exactly if a whole word of memory follows it: an aligned one exactly if its word lies in the memory |
| CacheModel.FoundWhereStored | 3rd year/CO/lab1/task4.3/l2_2wcache.c:166-185 | a valid line is found again when its block is looked up |
| CacheModel.WriteBack2Correct | 3rd year/CO/lab1/task4.3/l2_2wcache.c:218-229 | writing back without a tag check changes the content of that block and no other, because the block is present |
| CacheModel.Fetch2Inv | 3rd year/CO/lab1/task4.3/l2_2wcache.c:239-281 | a fetch keeps every clean line equal to memory and no tag twice in a set |
| CacheModel.Fetch2Content | 3rd year/CO/lab1/task4.3/l2_2wcache.c:239-281 | a fetch through the second level changes the content of no block |
| CacheModel.OtherLinesIncluded | 3rd year/CO/lab1/task4.3/l2_2wcache.c:271-274 | replacing a second-level block leaves every other first-level line included, in the way of its set used last |
| CacheModel.Fetch1Correct | 3rd year/CO/lab1/task4.3/l2_2wcache.c:239-281 | a first-level fetch keeps inclusion and the content of every block, and leaves the block in the first level |
| CacheModel.StoreOneWord | 3rd year/CO/lab1/task4.3/l2_2wcache.c:299-308 | storing a word changes the word at its own address only |
| CacheModel.WriteOneWord | 3rd year/CO/lab1/task4.3/l2_2wcache.c:239-308 | fetching a block and storing a word in it keeps the invariant and changes the word at its own address only, over all addresses of the memory |
| CacheModel.Potential1 | 3rd year/CO/lab1/task4.3/l2_2wcache.c:254-266 | the cost of a lookup plus the write-backs still owed rises by at most 110: a memory write-back is paid for by an earlier first-level one, and that by an earlier write |
| CacheModel.CostLevels | 3rd year/CO/lab1/task4.3/l2_2wcache.c:239-281 | a lookup costs nothing on a first-level hit, 10 on a second-level hit, 100 more on a miss, 5 for a line that goes down a level and 50 for one that goes down to memory |
| CacheModel.FetchLoads | 3rd year/CO/lab1/task4.3/l2_2wcache.c:239-281 | a lookup brings no other block into the caches |
| CacheModel.LoadTime | 3rd year/CO/lab1/task4.3/l2_2wcache.c:239-294 | an access takes one unit when the first level has the block and at least 111 when no level has it |
| Cache.Hierarchy.InitCache | 3rd year/CO/lab1/task4.3/l2_2wcache.c:76-115 | afterwards every block reads as in memory and nothing is dirty |
| Cache.Hierarchy.GetBlockIndex2 | 3rd year/CO/lab1/task4.3/l2_2wcache.c:166-185 | the slot that holds the block, or the way of its set not used last |
| Cache.Hierarchy.WriteBackL2 | 3rd year/CO/lab1/task4.3/l2_2wcache.c:218-229 | the slot found for the address takes the data and becomes dirty; one write time passes |
| Cache.Hierarchy.FetchL2 | 3rd year/CO/lab1/task4.3/l2_2wcache.c:239-281 | the second level as a fetch leaves it, with the data of the block and the exact time |
| Cache.Hierarchy.FetchL1 | 3rd year/CO/lab1/task4.3/l2_2wcache.c:239-281 | the data is the content of the block; both levels and the time are exactly those of one lookup |
| Cache.Hierarchy.Read | 3rd year/CO/lab1/task4.3/l2_2wcache.c:283-294 | an aligned address is served exactly if its word lies in the memory; then the answer is the word held there, no word changes, the first level holds the block, and the time is one unit and the cost of the lookup |
| Cache.Hierarchy.Write | 3rd year/CO/lab1/task4.3/l2_2wcache.c:296-310 | an aligned address is served exactly if its word lies in the memory; then that word changes and no other, the first level holds the block, and the time is one unit and the cost of the lookup |
| Cache.Hierarchy.Run | 3rd year/CO/lab1/task4.3/l2_2wcache.c:283-310 | each read of a run returns the word last written there, or the one held at the start; each block that was not warm costs one full miss at least |
| Cache.Session | 3rd year/CO/lab1/task4.3/l2_2wcache.c:76-310 | from fresh caches over a memory: every read returns the last word written or the memory word, and `n + 110 b <= time <= 111 n + 55 w` for `n` accesses to `b` different blocks with `w` writes, for every geometry; nothing is refused when all addresses are words of the memory |
| SessionQueue.NextKeeps | 2nd year/OS/P2/server/session.c:155-215 | whichever thread moves or is woken next, ring, mutex, sessions and wake-ups stay consistent |
| SessionQueue.FirstInFirstOut | 2nd year/OS/P2/server/session.c:176-209 | sessions leave in the order they entered, none twice; `count` is their number |
| SessionQueue.WakeServes | 2nd year/OS/P2/server/session.c:180-211 | a signal leaves no waiting thread without an awake one for the session or slot that was added |
| SessionQueue.StillClosing | 2nd year/OS/P2/server/session.c:126-129 | after the close only threads that the closing thread is about to wake still wait |
| SessionQueue.StuckOnlyWhenDue | 2nd year/OS/P2/server/session.c:163-206 | if nobody can go on, the queue runs, consumers wait only because it is empty and producers only because it is full: no wake-up was lost |
| SessionQueue.FreedIsQueued | 2nd year/OS/P2/server/session.c:146-148 | the sessions freed with the ring are exactly the queued ones, whether the queue wraps around or not |
| SessionQueue.FetchedOrFreed | 2nd year/OS/P2/server/session.c:146-184 | each session that entered was taken by one fetch or is freed, exactly once; outside the monitor the sessions that fetches have returned are exactly the ones taken, in the same order |
| SessionQueue.ReturnsItsOwn | 2nd year/OS/P2/server/session.c:176-184 | a fetch returns the session that it took itself, before another thread can take one; a fetch that returns none took none |
| SessionQueue.AnswersTrue | 2nd year/OS/P2/server/session.c:163-215 | a push answers that it was accepted exactly if its session is in the queue; a push is refused and a fetch returns none only once the queue is closed |
| SessionQueue.ClosedOnce | 2nd year/OS/P2/server/session.c:113-137 | of all closes exactly one succeeds, the one that closed the queue |
| SessionQueue.WakeUpsKept | 2nd year/OS/P2/server/session.c:163-211 | in every reachable state: while threads wait on a running queue there is an awake thread for each session or free slot; once it is closed nobody waits but for broadcasts still due |
| Minesweeper.Neighbours | 1st year/FP/P2.py:295-340 | exactly the adjacent coordinates within A-Z and 1-99, clockwise from the upper left one |
| Minesweeper.MineOnlyAtStart | 1st year/FP/P2.py:841-850 | a mine is uncovered only if it was the start |
| Minesweeper.Continued | 1st year/FP/P2.py:844-850 | a recursive call on a neighbour keeps what the call has done so far: nothing is cleared that does not follow from the start |
| Minesweeper.Finished | 1st year/FP/P2.py:836-850 | when the neighbours have been dealt with, exactly the cells that follow from the start are cleared |
| Minesweeper.SameMembers | 1st year/FP/P2.py:871 | lists without repeats sort to the same tuple exactly when they have the same members |
| Minesweeper.Field.constructor | 1st year/FP/P2.py:573-596 | every cell of the field is covered and hides no mine |
| Minesweeper.Field.NeighbouringMines | 1st year/FP/P2.py:680-698 | the number of mined neighbours on the field |
| Minesweeper.Field.ClearField | 1st year/FP/P2.py:823-851 | ends, and clears exactly the start and the covered cells reachable from it through cells that hide no mine and have none adjacent; a cleared start changes nothing |
| Minesweeper.Field.ClearAround | 1st year/FP/P2.py:843-850 | the loop clears every neighbour that clearing spreads to and nothing that does not follow |
| Minesweeper.Field.Coordinates | 1st year/FP/P2.py:657-677 | exactly the cells in the given state, line by line |
| Minesweeper.Field.GameWon | 1st year/FP/P2.py:857-871 | won exactly when the cells that are not cleared are the mined ones |
| Minesweeper.Field.ToggleFlag | 1st year/FP/P2.py:546-563 | a covered cell is flagged, a flagged one covered; a cleared one stays and the answer is false |
| GameFile.Stream.ReadSome | 3rd year/CN/common/common.cpp:307-335 | the loop over short reads gives up to `len` characters, drops an end of message that comes last, and notices the end of the file |
| GameFile.Stream.ReadField | 3rd year/CN/common/common.hpp:218-260 | a field of the given length and its separator, or the error of the reader; the stream stands after what was consumed |
| GameFile.ReadsField | 3rd year/CN/common/common.hpp:239-259 | where a field was printed with its separator or end of message, reading gives the field back |
| GameFile.StoulDigits | 3rd year/CN/server/game.cpp:441-442 | reading a printed number gives it back, up to the largest of 64 bits |
| GameFile.HeaderBack | 3rd year/CN/server/game.cpp:424-448 | the first line is read back, and the reader stands at the first trial |
| GameFile.TrialBack | 3rd year/CN/server/game.cpp:465-486 | a trial line is read back, and the reader stands after it |
| GameFile.EndingBack | 3rd year/CN/server/game.cpp:488-513 | the termination line is read back |
| GameFile.ParseGame | 3rd year/CN/server/game.cpp:423-514 | the parser over the stream answers as its description over the text, for every text, also a corrupted one |
| GameFile.ParsePrint | 3rd year/CN/server/game.cpp:423-514 | parsing a printed game gives back its player, mode, key, duration, start, trials, result and end time |
| GameFile.PrintedSample | 3rd year/CN/server/game.cpp:364-371 | the layout of a file, on a sample: a line for the game, one for each trial, one for the ending |
| GameFile.ParsedShaped | 3rd year/CN/server/game.cpp:423-514 | whatever text is accepted gives fields of the right lengths, at most 8 trials and a known result |
| Mastermind.Compare | 3rd year/CN/server/game.cpp:202-226 | `nB` counts the right colours in the right places and `nB + nW` the colours the codes share with repetitions, however the places are marked |
| Mastermind.ExactIsAgreeing | 3rd year/CN/server/game.cpp:205-212 | `nB` is the number of places where key and guess agree |
| Mastermind.DuplicateFinds | 3rd year/CN/server/game.cpp:277-287 | the number of the first trial with that guess, one past the maximum exactly when there is none |
| Mastermind.GuessedKeeps | 3rd year/CN/server/game.cpp:184-200 | a guess on an active game records exactly one trial, or none because the time was up, and keeps the game well-formed |
| Mastermind.TryKeeps | 3rd year/CN/server/server.cpp:584-683 | a TRY adds at most its own guess, only under the expected number and only if it is new; a game that has ended stays as it is |
| Mastermind.TryFollowsRules | 3rd year/CN/server/server.cpp:569-684 | a new guess under the expected number in time is recorded with its score and answered OK, or ENT on the last wrong one, or ETM when the time is up afterwards; DUP exactly for the expected number with a used guess, INV exactly for another number that is no resend; nothing else is recorded |
| GameServer.PrintTrial | 3rd year/CN/server/game.cpp:528-536 | appending the line of a trial to the file of an active game prints the game with that trial |
| GameServer.PrintEnding | 3rd year/CN/server/game.cpp:538-544 | appending reason and time prints the ended game |
| GameServer.WhenReread | 3rd year/CN/server/game.cpp:184-200 | a guess that is recorded is parsed back from the file as it was noted in memory if and only if the clock shows the same second at both readings and the game is not past its end, or the first reading is the very last second of the game |
| GameServer.WhenDiffers | 3rd year/CN/server/game.cpp:193-197 | a clock on which they differ: the time is noted as 1 and written as 2 |
| GameServer.LiveGame.Record | 3rd year/CN/server/game.cpp:193-197 | the trial goes to memory with the first reading of the clock and to the file with the second, and the file is the printed longer game |
| GameServer.LiveGame.Create | 3rd year/CN/server/game.cpp:364-371 | a new game stands on disk as it is in memory |
| GameServer.LiveGame.Load | 3rd year/CN/server/game.cpp:374-393 | a parsed game is the one that was printed |
| GameServer.LiveGame.HasEnded | 3rd year/CN/server/game.cpp:228-250 | wins over lost tries, lost tries over lost time; an ending is written once, with an end time that the duration caps |
| GameServer.LiveGame.Terminate | 3rd year/CN/server/game.cpp:538-544 | the file becomes the printed ended game |
| GameServer.LiveGame.Guess | 3rd year/CN/server/game.cpp:184-200 | the file takes the trial and the ending of the step; parsing it gives the trials in memory if and only if it did so before and, when a trial was recorded, its two readings of the clock agree |
| GameServer.LiveGame.Quit | 3rd year/CN/server/game.cpp:252-267 | ends an active game; quitting twice is ignored, quitting a finished game is refused |
| GameServer.LiveGame.IsDuplicate | 3rd year/CN/server/game.cpp:277-287 | the number of the first trial with that guess, one past the maximum if there is none |
| GameServer.DoTry | 3rd year/CN/server/server.cpp:569-684 | one request from file to file: the answer and the game that the file holds afterwards follow the rules, stated on the parsed game, the number and the clock; a game that ends is moved away as it is printed then |
| Trials.NextKeeps | 3rd year/CN/server/server.cpp:584-684 | sending, serving, receiving, giving up and ending keep client and server within one trial of each other |
| Trials.AtMostOnce | 3rd year/CN/server/server.cpp:599-683 | under lost, duplicated, delayed and reordered datagrams recorded guesses are pairwise distinct, each was sent under its number and has the right score, and `client <= server <= client + 1` until the client stops |
| Trials.RecordedStays | 3rd year/CN/server/server.cpp:644-676 | a step adds at most one trial, at the end |
| Trials.ReceiveKeeps | 3rd year/CN/client/client.cpp:221-314 | whatever reply the client takes for its answer, it stays within one trial of the server or stops |
| Trials.ResendSame | 3rd year/CN/server/server.cpp:600-616 | while the game is active the last trial, sent again, gets the answer it got and changes nothing |
| Trials.ExchangeGoesOn | 3rd year/CN/client/client.cpp:218-314 | a new guess in time, exchanged without faults, is recorded; the client goes on with the next number while the game goes on, and leaves it exactly when it has ended |
| Trials.ResendCatchesUp | 3rd year/CN/client/client.cpp:292-304 | when an answer was lost, trying the same guess again brings the client back in step |

## Left out

- Machine integers: `uint32_t`, `int`, `Integer` and `size_t` arithmetic is over unbounded integers, except the packed words of the pipe puzzle, which are bit vectors, and the bound of `std::stoul`.
- Failures of malloc, pthread calls and files, and the messages, sockets, pipes, directories and delays around the modelled code.
- The null checks of the C functions, and file descriptors: commands, game files and memory contents are sequences.
- TugaNet.DFSMaxJumpsVisit: the visit of a node and the loop over its edges are methods of their own.
- SuperMarble.Solve: slabs and items with a side of zero.
- Pipe puzzle: the depth-first variants of the worklist (the queue proof does not use its order), and splitting the input into lines and pieces. The classes `Node` and `Problem` come from a library that is not part of this model; a node of the search is its state.
- PipeSolver.SortByLocked: does not say that the sort is stable, which no result depends on.
- PipeMania.PipeManiaState.LockAndGo: stands for the body that `result` and `goal_test` share.
- Reservation ids: only that they are positive. Failed attempts take their increment back (`operations.c:193`), so two committed reservations may carry the same id.
- Halls without rows or columns, and the output lock that failing operations hand to their callers.
- Pools.BarrierSeparates: executing a command is one step after its arguments were read, so what commands do to each other is the subject of `ReservationRuns` and `EventList`, not of `Pools`.
- Pools.SomeoneMoves: the delays of WAIT are left out.
- Starvation: progress is proved for the system, not for each waiting thread.
- The simpler event manager in `2nd year/OS/P2/server/operations.c`.
- Spreadsheet: cells are named by position and the nested row and column maps are flattened into one map; a range object is named by an identity. Bounds checks of positions, cyclic sheets (neither evaluation nor notification ends), the cut buffer, rendering, search and saving are left out.
- SheetStorage.Storage.NewRange: intervals are lists of positions; that they are straight lines is not used.
- Cache: addresses that are not a multiple of the word size select the word that contains them. `exit(-1)` on an illegal address is a refused access.
- Session queue: errors of pthread calls, and freeing the queue while threads still use it.
- SessionQueue.FetchedOrFreed: a session whose push was refused because the queue is closed never entered the queue.
- Minesweeper: placing the mines (`coloca_minas` depends on the random generator) and the dialogue with the player; coordinates and parcels are not checked for their type.
- GameFile.ParseGame: `std::stoul` is modelled with leading white space, a sign and values out of range, over 64 bits; the start and end times stay the unsigned value, where the program stores them in a signed `time_t`.
- GameServer.LiveGame.Record: the time noted in memory is unbounded, where the program casts a `double` to 16 bits; it can differ only for a clock far past the end of the game.
- Mastermind: scoreboards, hints, listings of trials, the check of the requests' syntax, and ERR answers to malformed messages.
- Trials.ResendSame: says nothing about a resend after the trial that ended the game; the file has been moved by then, so the answer is NOK.
- Trials.AtMostOnce: one client and one game; a client that is started again does not know its trial number.

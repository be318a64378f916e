# edawakare: breadth-first tree growth, modelled in Dafny

edawakare grows a branching tree on the plane from the root point (0, 400).
All `tree` objects share three static members: the committed branches
(`allBranches`), a FIFO queue of pending growth points (`vertexes`) and a
node counter (`count`, budget `MAXCOUNT` = 10000). Each `Grow` pops the front
point p and proposes three branches of one step (`BRANCHDELTA` = 10) to the
right of p: left (end p + (10, -10)), top (end p + (10, 0)) and right
(end p + (10, 10)). Each is gated by a weighted coin (`Dice`) and by the
end-point collision test (`IntersectWithArray`). An accepted branch
constructs a new `tree` at its end. That construction counts the tree and
enqueues its point while the counter stays within budget. The branch is
then appended.

The project has four modules:

- `Geometry` (geometry.dfy): points, branches, the `Collides` predicate and
  the `IntersectWithArray` scan proved against it.
- `Coin` (coin.dfy): `Dice` as a function of the drawn integer, and how many
  draws make it fire.
- `Growth` (growth.dfy): the shared state as a value `Model`, one growth step
  `GrowStep`, and a reference description `Accepted` of what a step commits.
  The lemmas here state what the algorithm promises.
- `TreeState` (tree.dfy): class `Tree`, whose fields are the three static
  members. Its constructor, `Spawn`, `Reset` and `Grow` update them in place
  and are proved to follow `Growth`. It also holds the first-step scenario of
  the program.

Two behaviours of the code are easy to misread; the model follows the code:

- `Reset` sets the counter to 0 and does not count the root it enqueues,
  unlike the first construction, which leaves the counter at 1
  (edawakare/Main.cpp:58, 70).
- Past the budget, `Grow` still appends an accepted branch. Only the enqueue
  of its end point is skipped, because `make_shared<tree>` runs before the
  unconditional `push_back` (edawakare/Main.cpp:84-85, 93-94, 102-103).
  So the budget stops the queue from growing, not the branch list.
  `GrowPastBudget` and `BudgetDrainsQueue` state what the code does.

## Model

| member | source | states |
|---|---|---|
| Coin.Dice | edawakare/Main.cpp:13-21 | the coin fires iff the draw is below the border; a border of 1 or less never fires, a border above the draw range always fires |
| Coin.FiringDrawsCount | edawakare/Main.cpp:16-17 | of the draws 1..size exactly border-1 fire (clamped to [0, size]), so the firing probability is (border-1)/size, off by one from border/size |
| Geometry.IntersectWithArray | edawakare/Main.cpp:23-30 | the scan returns true iff some line's begin or end equals the candidate's end point; false on an empty list |
| Geometry.CollidesConcat | edawakare/Main.cpp:24-28 | a candidate collides with a concatenation iff it collides with one of the parts |
| Geometry.NoCollisionsAppend | edawakare/Main.cpp:83-85 | appending a branch keeps "no branch ends on an earlier branch's begin or end" iff the branch passes the collision test against the list before it |
| Growth.CommitAllEffect | edawakare/Main.cpp:84-85 | committing branches one by one appends them in order, counts one tree each, and enqueues the ends of exactly those constructed while the counter is below MAXCOUNT |
| Growth.GrowEffect | edawakare/Main.cpp:75-106 | a step on a non-empty queue commits exactly the candidates whose coin fires and that miss the branches from before the step; the sequential test inside the step decides the same. The counter rises by the number committed, the front leaves the queue and the committed ends join its back as far as the budget allows |
| Growth.GrowFrame | edawakare/Main.cpp:75-106 | earlier branches are untouched, at most 3 are appended, the counter rises by exactly the number appended, and an empty queue leaves the whole state unchanged |
| Growth.GrowFifo | edawakare/Main.cpp:78-105 | the queue after a step is the old queue without its front, followed by the committed branches' ends in commit order, only as many as the budget admits |
| Growth.GrowGeometry | edawakare/Main.cpp:78-105 | every committed branch begins at the popped point and ends at p+(10,-10), p+(10,0) or p+(10,10), in increasing y order (left, top, right) |
| Growth.GrowAcceptance | edawakare/Main.cpp:80-105 | each of the three candidates is committed iff its coin fires and its end misses every existing branch's begin and end |
| Growth.GrowPastBudget | edawakare/Main.cpp:70-72 | once the counter is at MAXCOUNT a step enqueues nothing, so the queue only loses its front |
| Growth.BudgetDrainsQueue | edawakare/Main.cpp:65-106 | once the budget is spent, after as many steps as there are queued points the queue is empty, and those steps append at most 3 branches per queued point |
| Growth.GrowKeepsInv | edawakare/Main.cpp:80-105 | a step keeps the state invariant: no committed branch ends on an earlier branch's begin or end, the counter bounds the branch count and the queue length |
| Growth.SpawnKeepsInv | edawakare/Main.cpp:65-73 | constructing a tree keeps the state invariant |
| TreeState.Tree.constructor | edawakare/Main.cpp:49-73 | from the initial statics, the first tree leaves no branches, the queue [startPos] and the counter 1 |
| TreeState.Tree.Spawn | edawakare/Main.cpp:65-73 | the counter rises by exactly 1; startPos is enqueued at the back iff the new counter is at most MAXCOUNT; branches unchanged |
| TreeState.Tree.Reset | edawakare/Main.cpp:53-63 | afterwards there are no branches, the counter is 0 and the queue is exactly [startPos], whatever the old state was |
| TreeState.Tree.Grow | edawakare/Main.cpp:75-106 | the in-place step leaves exactly the state GrowStep gives for the coins Dice throws with these thresholds and draws, and keeps the invariant (by GrowKeepsInv) |
| TreeState.Tree.CommitBranch | edawakare/Main.cpp:84-85 | constructing a tree at the end and appending the branch is one Commit of the model |
| TreeState.ResetTwice | edawakare/Main.cpp:53-63 | a second reset to the same point leaves exactly the state the first one left: no branches, the queue [startPos], the counter 0 |
| TreeState.FirstGrow | edawakare/Main.cpp:116 | from `tree tr(Vec2(0,400))` at the initial probabilities, one Grow appends (0,400)->(10,390), (10,400), (10,410), enqueues those ends in that order and leaves the counter at 4, whatever is drawn |

## Left out

- `tree::Write`, the colour tags of `branch.draw(Palette::...)`, `Scene`,
  the `SimpleGUI` sliders and buttons, `Print` and `Main`'s event loop: this
  is rendering and UI with no logic to verify.
- The random source (`std::random_device`, `std::mt19937`) in `Dice`: the
  drawn integer is a parameter (`Draws`), required to lie in [1, 100] as
  the distribution guarantees.
- `PROB.X * 100`: the double multiplication and its conversion to `int` are
  not modelled. The resulting integer thresholds are a parameter
  (`Probability`) of each `Grow`, which also covers the sliders changing
  them between steps.
- Floating-point `Vec2`/`Line` coordinates: every coordinate reached is an
  integer, so points are pairs of `int`.
- The `left`, `top` and `right` `shared_ptr` child handles and their
  `reset()` calls in `Reset`: they are never read, including the right branch
  assigning to `left` (edawakare/Main.cpp:102). Only the constructor's effect
  on the shared state is kept. `MAXHEIGHT` is unused.
- `std::thread` and `std::mutex` in `Main`: they are declared and never used.
- TreeState.Tree.Spawn: the counter is an unbounded integer, so C++ `int`
  overflow is not modelled. It cannot arise here: past the budget the queue
  only shrinks and each step adds at most 3 to the counter.

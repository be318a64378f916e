/** The `tree` struct of the source. Its three static members are shared by
    every `tree` object, so they are modelled as one object of class `Tree`
    whose methods update them in place; each method is proved to follow the
    value-level model of module Growth. */
module TreeState {
  import opened Geometry
  import opened Coin
  import opened Growth

  /** The thresholds `Grow` passes to `Dice`: the global probabilities
      `PROB.LEFT`, `PROB.TOP` and `PROB.RIGHT` scaled by 100 and converted
      to `int`. */
  datatype Probability = Probability(left: int, top: int, right: int)

  /** The program's initial probabilities 20, 100 and 20, scaled by 100. */
  const INITIAL_PROBABILITY := Probability(2000, 10000, 2000)

  /** The integers the three `Dice(100, ...)` calls of one `Grow` draw. */
  datatype Draws = Draws(left: int, top: int, right: int)

  /** Every draw of `Dice(100, ...)` lies in [1, 100]. */
  predicate DrawsInRange(d: Draws)
  {
    1 <= d.left <= 100 && 1 <= d.top <= 100 && 1 <= d.right <= 100
  }

  /** The three coins `Grow` throws with these thresholds and draws. */
  function CoinsOf(prob: Probability, draws: Draws): Coins
    requires DrawsInRange(draws)
  {
    Coins(Dice(100, prob.left, draws.left), Dice(100, prob.top, draws.top),
          Dice(100, prob.right, draws.right))
  }

  class Tree {
    /** `tree::allBranches`: every committed branch, in commit order. */
    var allBranches: seq<Branch>
    /** `tree::vertexes`: pending growth points, front first. */
    var vertexes: seq<Point>
    /** `tree::count`: trees constructed since start or the last reset. */
    var count: int

    function Abstract(): Model
      reads this
    {
      Model(allBranches, vertexes, count)
    }

    ghost predicate Valid()
      reads this
    {
      Inv(Abstract())
    }

    /** The static members as the program starts (empty, empty, 0),
        followed by the first construction `tree tr(startPos)`. */
    constructor (startPos: Point)
      ensures Valid()
      ensures allBranches == [] && vertexes == [startPos] && count == 1
    {
      allBranches := [];
      vertexes := [];
      count := 0;
      new;
      SpawnKeepsInv(Abstract(), startPos);
      Spawn(startPos);
    }

    /** `tree::tree(startPos)` as it acts on the shared state, both for the
        first tree and for every `make_shared<tree>` in `Grow`: count one
        more tree, and enqueue its point only while within budget. */
    method Spawn(startPos: Point)
      modifies this
      ensures count == old(count) + 1
      ensures vertexes == if count <= MAXCOUNT then old(vertexes) + [startPos] else old(vertexes)
      ensures allBranches == old(allBranches)
      ensures Abstract() == Spawned(old(Abstract()), startPos)
    {
      count := count + 1;
      if count > MAXCOUNT {
        return;
      }
      vertexes := vertexes + [startPos];
    }

    /** `tree::Reset(startPos)`: forget every branch, zero the counter, pop
        the queue until it is empty and enqueue `startPos`. The new state
        does not depend on the old one, so resetting twice to the same point
        is the same as resetting once. */
    method Reset(startPos: Point)
      modifies this
      ensures Valid()
      ensures allBranches == [] && count == 0 && vertexes == [startPos]
    {
      allBranches := [];
      count := 0;
      while |vertexes| > 0
        invariant allBranches == [] && count == 0
        decreases |vertexes|
      {
        vertexes := vertexes[1..];
      }
      vertexes := vertexes + [startPos];
    }

    /** `tree::Grow()`: on an empty queue nothing happens; otherwise pop the
        front point and throw the left, top and right coins in turn; a
        candidate whose coin fires and that passes the collision test against
        the branches committed so far constructs a tree at its end point and
        is appended. */
    method Grow(prob: Probability, draws: Draws)
      requires Valid() && DrawsInRange(draws)
      modifies this
      ensures Valid()
      ensures Abstract() == GrowStep(old(Abstract()), CoinsOf(prob, draws))
    {
      if |vertexes| == 0 {
        return;
      }
      ghost var coins := CoinsOf(prob, draws);
      ghost var m := Abstract();
      GrowKeepsInv(m, coins);
      var front := vertexes[0];
      var branchBase := Branch(front, Point(front.x + BRANCHDELTA, front.y));
      vertexes := vertexes[1..];
      ghost var m0 := Abstract();

      if Dice(100, prob.left, draws.left) {
        var branch := Branch(branchBase.begin, Point(branchBase.end.x, branchBase.end.y - BRANCHDELTA));
        var hit := IntersectWithArray(branch, allBranches);
        if !hit {
          CommitBranch(branch);
        }
      }
      ghost var m1 := Abstract();
      assert m1 == Attempt(m0, Candidate(front, -BRANCHDELTA), coins.left);

      if Dice(100, prob.top, draws.top) {
        var branch := branchBase;
        var hit := IntersectWithArray(branch, allBranches);
        if !hit {
          CommitBranch(branch);
        }
      }
      ghost var m2 := Abstract();
      assert m2 == Attempt(m1, Candidate(front, 0), coins.top);

      if Dice(100, prob.right, draws.right) {
        var branch := Branch(branchBase.begin, Point(branchBase.end.x, branchBase.end.y + BRANCHDELTA));
        var hit := IntersectWithArray(branch, allBranches);
        if !hit {
          CommitBranch(branch);
        }
      }
    }

    /** The body of one accepted candidate in `Grow`: construct a tree at
        the branch's end point, then append the branch. */
    method CommitBranch(branch: Branch)
      modifies this
      ensures Abstract() == Commit(old(Abstract()), branch)
    {
      Spawn(branch.end);
      allBranches := allBranches + [branch];
    }
  }

  /** Resetting is idempotent: a second `Reset` to the same point leaves the
      state the first one left. */
  method ResetTwice(tr: Tree, startPos: Point) returns (once: Model, twice: Model)
    modifies tr
    ensures once == twice
    ensures twice == Model([], [startPos], 0)
  {
    tr.Reset(startPos);
    once := tr.Abstract();
    tr.Reset(startPos);
    twice := tr.Abstract();
  }

  /** The program's first step: `tree tr(Vec2(0, 400))` then one `Grow` at
      the initial probabilities, whose thresholds exceed every draw, so all
      three coins fire whatever is drawn. Three branches leave (0, 400), their
      ends are enqueued in left, top, right order and the counter is 4. */
  method FirstGrow(draws: Draws) returns (branches: seq<Branch>, queue: seq<Point>, count: int)
    requires DrawsInRange(draws)
    ensures branches == [Branch(Point(0, 400), Point(10, 390)),
                         Branch(Point(0, 400), Point(10, 400)),
                         Branch(Point(0, 400), Point(10, 410))]
    ensures queue == [Point(10, 390), Point(10, 400), Point(10, 410)]
    ensures count == 4
  {
    var tr := new Tree(Point(0, 400));
    tr.Grow(INITIAL_PROBABILITY, draws);
    ghost var root := Point(0, 400);
    ghost var L, T, R := Candidate(root, -BRANCHDELTA), Candidate(root, 0), Candidate(root, BRANCHDELTA);
    assert CoinsOf(INITIAL_PROBABILITY, draws) == Coins(true, true, true);
    assert !Collides(L, []) && !Collides(T, []) && !Collides(R, []);
    assert Accepted(root, Coins(true, true, true), []) == [L, T, R];
    GrowEffect(Model([], [root], 1), Coins(true, true, true));
    assert Ends([L, T, R])[..Enqueued(1, 3)] == [L.end, T.end, R.end];
    branches, queue, count := tr.allBranches, tr.vertexes, tr.count;
  }
}

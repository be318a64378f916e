/** The growth algorithm on values: the shared `tree` state as a `Model`, one
    growth step as `GrowStep`, and what a step does to branches, queue and
    counter. The class in TreeState is proved to follow these functions. */
module Growth {
  import opened Geometry

  /** `tree::BRANCHDELTA`: the length of one growth step. */
  const BRANCHDELTA := 10
  /** `tree::MAXCOUNT`: the node budget. */
  const MAXCOUNT := 10000

  /** The static members of `tree`: the committed branches in commit order,
      the FIFO queue of pending growth points (front first) and the node
      counter. */
  datatype Model = Model(branches: seq<Branch>, queue: seq<Point>, count: int)

  /** The outcomes of the three coins of one step, in the order they are
      thrown: left (end moved by -BRANCHDELTA in y), top (straight) and
      right (end moved by +BRANCHDELTA in y). */
  datatype Coins = Coins(left: bool, top: bool, right: bool)

  /** The state invariant: the counter is never below the number of
      committed branches, the queue holds at most one point more than the
      counter (the root that `Reset` enqueues without counting it), and no
      committed branch ends on an earlier branch's begin or end point. */
  predicate Inv(m: Model)
  {
    |m.branches| <= m.count && |m.queue| <= m.count + 1 && NoCollisions(m.branches)
  }

  /** Constructing a `tree` at `startPos`: the counter goes up by one and
      the point is enqueued only while the counter is within budget. */
  function Spawned(m: Model, startPos: Point): Model
  {
    var count := m.count + 1;
    Model(m.branches, if count > MAXCOUNT then m.queue else m.queue + [startPos], count)
  }

  /** The candidate branch from growth point `p` ending one step to the
      right of `p` and `dy` off it vertically. */
  function Candidate(p: Point, dy: int): Branch
  {
    Branch(p, Point(p.x + BRANCHDELTA, p.y + dy))
  }

  /** Committing branch `c`: construct a `tree` at its end, then append it. */
  function Commit(m: Model, c: Branch): Model
  {
    var s := Spawned(m, c.end);
    Model(s.branches + [c], s.queue, s.count)
  }

  /** One of the three blocks of `Grow`: when the coin fires and `c` does not
      collide with the branches committed so far, commit it. */
  function Attempt(m: Model, c: Branch, coin: bool): Model
  {
    if coin && !Collides(c, m.branches) then Commit(m, c) else m
  }

  /** `tree::Grow`: nothing on an empty queue; otherwise pop the front
      point and attempt the left, top and right candidates in turn, each
      tested against the branches as they stand after the previous one. */
  function GrowStep(m: Model, coins: Coins): Model
  {
    if m.queue == [] then m
    else
      var p := m.queue[0];
      var m0 := Model(m.branches, m.queue[1..], m.count);
      var m1 := Attempt(m0, Candidate(p, -BRANCHDELTA), coins.left);
      var m2 := Attempt(m1, Candidate(p, 0), coins.top);
      Attempt(m2, Candidate(p, BRANCHDELTA), coins.right)
  }

  /** Successive steps, one per element of `coins`. */
  function GrowSteps(m: Model, coins: seq<Coins>): Model
    decreases |coins|
  {
    if coins == [] then m else GrowSteps(GrowStep(m, coins[0]), coins[1..])
  }

  // ---------------------------------------------------------------------
  // A reference description of one step: which candidates are committed,
  // decided against the branches as they were before the step.

  /** `[c]` when `c` passes its coin and the collision test, `[]` otherwise. */
  function Accept(c: Branch, coin: bool, committed: seq<Branch>): seq<Branch>
  {
    if coin && !Collides(c, committed) then [c] else []
  }

  /** The branches a step from `p` commits, in commit order. */
  function Accepted(p: Point, coins: Coins, committed: seq<Branch>): seq<Branch>
  {
    Accept(Candidate(p, -BRANCHDELTA), coins.left, committed)
    + Accept(Candidate(p, 0), coins.top, committed)
    + Accept(Candidate(p, BRANCHDELTA), coins.right, committed)
  }

  /** The end points of `cs`, in order. */
  function Ends(cs: seq<Branch>): (ends: seq<Point>)
    ensures |ends| == |cs|
    ensures forall i :: 0 <= i < |cs| ==> ends[i] == cs[i].end
  {
    if cs == [] then [] else [cs[0].end] + Ends(cs[1..])
  }

  /** Of `n` trees constructed starting from counter value `count`, how many
      enqueue their point: those constructed while the counter is below
      MAXCOUNT. */
  function Enqueued(count: int, n: nat): (k: nat)
    ensures k <= n
    ensures count >= MAXCOUNT ==> k == 0
    ensures count + n <= MAXCOUNT ==> k == n
  {
    if count >= MAXCOUNT then 0 else if n <= MAXCOUNT - count then n else MAXCOUNT - count
  }

  /** Committing every branch of `cs` in turn. */
  function CommitAll(m: Model, cs: seq<Branch>): Model
    decreases |cs|
  {
    if cs == [] then m else CommitAll(Commit(m, cs[0]), cs[1..])
  }

  /** Committing `cs` appends it to the branches and counts one tree per
      branch. */
  lemma {:induction false} CommitAllBranches(m: Model, cs: seq<Branch>)
    ensures CommitAll(m, cs).branches == m.branches + cs
    ensures CommitAll(m, cs).count == m.count + |cs|
    decreases |cs|
  {
    if cs == [] {
      assert m.branches + cs == m.branches;
    } else {
      CommitAllBranches(Commit(m, cs[0]), cs[1..]);
      assert cs == [cs[0]] + cs[1..];
      assert m.branches + cs == m.branches + [cs[0]] + cs[1..];
    }
  }

  /** Committing `cs` enqueues the end points of its first branches, as many
      as are constructed below the budget. */
  lemma {:induction false} CommitAllQueue(m: Model, cs: seq<Branch>)
    ensures CommitAll(m, cs).queue == m.queue + Ends(cs)[..Enqueued(m.count, |cs|)]
    decreases |cs|
  {
    if cs == [] {
      assert m.queue + Ends(cs)[..0] == m.queue;
    } else {
      var m1 := Commit(m, cs[0]);
      assert CommitAll(m, cs) == CommitAll(m1, cs[1..]);
      CommitAllQueue(m1, cs[1..]);
      var k := Enqueued(m.count, |cs|);
      if m.count < MAXCOUNT {
        assert Enqueued(m1.count, |cs| - 1) == k - 1;
        assert m1.queue == m.queue + [cs[0].end];
        EnqueueFirst(m.queue, cs, k);
      } else {
        assert m1.queue == m.queue;
      }
    }
  }

  lemma CommitAllEffect(m: Model, cs: seq<Branch>)
    ensures CommitAll(m, cs)
         == Model(m.branches + cs, m.queue + Ends(cs)[..Enqueued(m.count, |cs|)], m.count + |cs|)
  {
    CommitAllBranches(m, cs);
    CommitAllQueue(m, cs);
  }

  /** Enqueuing the first of `k` end points, then the other `k - 1`. */
  lemma EnqueueFirst(q: seq<Point>, cs: seq<Branch>, k: nat)
    requires 0 < k <= |cs|
    ensures (q + [cs[0].end]) + Ends(cs[1..])[..k - 1] == q + Ends(cs)[..k]
  {
    assert Ends(cs)[..k] == [cs[0].end] + Ends(cs[1..])[..k - 1];
  }

  lemma {:induction false} CommitAllConcat(m: Model, xs: seq<Branch>, ys: seq<Branch>)
    ensures CommitAll(m, xs + ys) == CommitAll(CommitAll(m, xs), ys)
    decreases |xs|
  {
    if xs == [] {
      assert xs + ys == ys;
    } else {
      assert (xs + ys)[0] == xs[0];
      assert (xs + ys)[1..] == xs[1..] + ys;
      CommitAllConcat(Commit(m, xs[0]), xs[1..], ys);
    }
  }

  lemma AttemptCommits(m: Model, c: Branch, coin: bool)
    ensures Attempt(m, c, coin) == CommitAll(m, Accept(c, coin, m.branches))
  {
    assert [c][1..] == [];
  }

  /** A candidate never collides with a branch committed earlier in the same
      step: their end points differ and none of them ends on `p`. */
  lemma SiblingsDoNotCollide(p: Point, coins: Coins, committed: seq<Branch>, c: Branch, xs: seq<Branch>)
    requires c.begin == p && c.end.x == p.x + BRANCHDELTA
    requires forall i :: 0 <= i < |xs| ==> xs[i].begin == p && xs[i].end != c.end
    ensures Collides(c, committed + xs) <==> Collides(c, committed)
  {
    CollidesConcat(c, committed, xs);
  }

  /** One step commits exactly `Accepted(p, ...)`: the sequential collision
      test, which sees the branches committed earlier in the same step,
      decides the same as testing each candidate against the branches from
      before the step. The counter grows by the number committed, the front
      point leaves the queue and the new ends join its back, as many as the
      budget lets in. */
  lemma GrowEffect(m: Model, coins: Coins)
    requires m.queue != []
    ensures var added := Accepted(m.queue[0], coins, m.branches);
            GrowStep(m, coins) == Model(m.branches + added,
                                        m.queue[1..] + Ends(added)[..Enqueued(m.count, |added|)],
                                        m.count + |added|)
  {
    var p, b := m.queue[0], m.branches;
    var L, T, R := Candidate(p, -BRANCHDELTA), Candidate(p, 0), Candidate(p, BRANCHDELTA);
    var aL, aT, aR := Accept(L, coins.left, b), Accept(T, coins.top, b), Accept(R, coins.right, b);
    var m0 := Model(b, m.queue[1..], m.count);

    var m1 := Attempt(m0, L, coins.left);
    AttemptCommits(m0, L, coins.left);
    CommitAllEffect(m0, aL);
    assert m1.branches == b + aL;

    SiblingsDoNotCollide(p, coins, b, T, aL);
    var m2 := Attempt(m1, T, coins.top);
    AttemptCommits(m1, T, coins.top);
    CommitAllConcat(m0, aL, aT);
    CommitAllEffect(m0, aL + aT);
    assert m2.branches == b + (aL + aT);

    SiblingsDoNotCollide(p, coins, b, R, aL + aT);
    AttemptCommits(m2, R, coins.right);
    CommitAllConcat(m0, aL + aT, aR);
    CommitAllEffect(m0, aL + aT + aR);
  }

  // ---------------------------------------------------------------------
  // Properties of one step.

  /** A step leaves the committed branches untouched, appends at most three
      after them, raises the counter by exactly the number appended, and on
      an empty queue changes nothing. */
  lemma GrowFrame(m: Model, coins: Coins)
    ensures var r := GrowStep(m, coins);
            |m.branches| <= |r.branches| <= |m.branches| + 3
            && r.branches[..|m.branches|] == m.branches
            && r.count - m.count == |r.branches| - |m.branches|
            && (m.queue == [] ==> r == m)
  {
    if m.queue != [] {
      GrowEffect(m, coins);
      var added := Accepted(m.queue[0], coins, m.branches);
      assert (m.branches + added)[..|m.branches|] == m.branches;
    }
  }

  /** The queue is first in, first out: a step removes exactly the front
      point and appends, behind the rest, the end points of the branches it
      committed in commit order, only as many as were constructed while the
      counter was below MAXCOUNT. */
  lemma GrowFifo(m: Model, coins: Coins)
    requires m.queue != []
    ensures var r := GrowStep(m, coins);
            var added := r.branches[|m.branches|..];
            r.queue == m.queue[1..] + Ends(added)[..Enqueued(m.count, |added|)]
  {
    GrowEffect(m, coins);
    var added := Accepted(m.queue[0], coins, m.branches);
    assert (m.branches + added)[|m.branches|..] == added;
  }

  /** The branches `Accepted` lists begin at `p`, end one step to its right
      and come in increasing order of their end points' y. */
  lemma AcceptedGeometry(p: Point, coins: Coins, committed: seq<Branch>)
    ensures var added := Accepted(p, coins, committed);
            |added| <= 3
            && (forall i :: 0 <= i < |added| ==>
                  added[i].begin == p && added[i].end.x == p.x + BRANCHDELTA
                  && added[i].end.y - p.y in {-BRANCHDELTA, 0, BRANCHDELTA})
            && (forall i, j :: 0 <= i < j < |added| ==> added[i].end.y < added[j].end.y)
  {
    var aL := Accept(Candidate(p, -BRANCHDELTA), coins.left, committed);
    var aT := Accept(Candidate(p, 0), coins.top, committed);
    var aR := Accept(Candidate(p, BRANCHDELTA), coins.right, committed);
    var aLT := aL + aT;
    assert forall i, j :: 0 <= i < j < |aLT| ==> aLT[i].end.y < aLT[j].end.y;
  }

  /** Every branch a step commits begins at the popped point `p` and ends
      one step to its right, at p + (10, -10), p + (10, 0) or p + (10, 10);
      they come in that order, so no two of them share an end point. */
  lemma GrowGeometry(m: Model, coins: Coins)
    requires m.queue != []
    ensures var r, p := GrowStep(m, coins), m.queue[0];
            (forall i :: |m.branches| <= i < |r.branches| ==>
               r.branches[i].begin == p && r.branches[i].end.x == p.x + BRANCHDELTA
               && r.branches[i].end.y - p.y in {-BRANCHDELTA, 0, BRANCHDELTA})
            && (forall i, j :: |m.branches| <= i < j < |r.branches| ==>
                  r.branches[i].end.y < r.branches[j].end.y)
  {
    var p, b := m.queue[0], m.branches;
    var added := Accepted(p, coins, b);
    GrowEffect(m, coins);
    AcceptedGeometry(p, coins, b);
    var rb := GrowStep(m, coins).branches;
    assert rb == b + added;
    forall i | |b| <= i < |rb|
      ensures rb[i] == added[i - |b|]
    {
    }
  }

  /** `Accepted` lists a candidate exactly when its coin fires and it does
      not collide with `committed`. */
  lemma AcceptedMembers(p: Point, coins: Coins, committed: seq<Branch>)
    ensures var added := Accepted(p, coins, committed);
            var L, T, R := Candidate(p, -BRANCHDELTA), Candidate(p, 0), Candidate(p, BRANCHDELTA);
            (L in added <==> coins.left && !Collides(L, committed))
            && (T in added <==> coins.top && !Collides(T, committed))
            && (R in added <==> coins.right && !Collides(R, committed))
  {
  }

  /** Each candidate is committed exactly when its coin fires and it does
      not collide with the branches committed before the step. */
  lemma GrowAcceptance(m: Model, coins: Coins)
    requires m.queue != []
    ensures var r, p := GrowStep(m, coins), m.queue[0];
            var added := r.branches[|m.branches|..];
            var L, T, R := Candidate(p, -BRANCHDELTA), Candidate(p, 0), Candidate(p, BRANCHDELTA);
            (L in added <==> coins.left && !Collides(L, m.branches))
            && (T in added <==> coins.top && !Collides(T, m.branches))
            && (R in added <==> coins.right && !Collides(R, m.branches))
  {
    var p, b := m.queue[0], m.branches;
    var added := Accepted(p, coins, b);
    GrowEffect(m, coins);
    AcceptedMembers(p, coins, b);
    assert GrowStep(m, coins).branches[|b|..] == added by {
      assert (b + added)[|b|..] == added;
    }
  }

  /** Once the counter has reached MAXCOUNT a step enqueues nothing, though
      it still commits branches: the queue only shrinks. */
  lemma GrowPastBudget(m: Model, coins: Coins)
    requires m.queue != [] && m.count >= MAXCOUNT
    ensures GrowStep(m, coins).queue == m.queue[1..]
    ensures GrowStep(m, coins).count >= MAXCOUNT
  {
    GrowEffect(m, coins);
  }

  /** Committing one candidate keeps the invariant. */
  lemma AttemptKeepsInv(m: Model, c: Branch, coin: bool)
    requires Inv(m)
    ensures Inv(Attempt(m, c, coin))
  {
    if coin && !Collides(c, m.branches) {
      NoCollisionsAppend(m.branches, c);
    }
  }

  /** A step keeps the invariant; in particular no committed branch ever ends
      on the begin or end point of a branch committed before it. */
  lemma GrowKeepsInv(m: Model, coins: Coins)
    requires Inv(m)
    ensures Inv(GrowStep(m, coins))
  {
    if m.queue != [] {
      var p := m.queue[0];
      var m0 := Model(m.branches, m.queue[1..], m.count);
      var m1 := Attempt(m0, Candidate(p, -BRANCHDELTA), coins.left);
      var m2 := Attempt(m1, Candidate(p, 0), coins.top);
      AttemptKeepsInv(m0, Candidate(p, -BRANCHDELTA), coins.left);
      AttemptKeepsInv(m1, Candidate(p, 0), coins.top);
      AttemptKeepsInv(m2, Candidate(p, BRANCHDELTA), coins.right);
    }
  }

  /** Constructing a tree keeps the invariant. */
  lemma SpawnKeepsInv(m: Model, startPos: Point)
    requires Inv(m)
    ensures Inv(Spawned(m, startPos))
  {
  }

  // ---------------------------------------------------------------------
  // Many steps.

  /** Once the budget is spent, growth dies out: after as many steps as there
      are queued points the queue is empty (and every later step changes
      nothing), and those steps commit at most three branches per point. */
  lemma {:induction false} BudgetDrainsQueue(m: Model, coins: seq<Coins>)
    requires m.count >= MAXCOUNT
    ensures var r := GrowSteps(m, coins);
            r.count >= MAXCOUNT
            && |r.queue| == (if |coins| < |m.queue| then |m.queue| - |coins| else 0)
            && |m.branches| <= |r.branches| <= |m.branches| + 3 * |m.queue|
    decreases |coins|
  {
    if coins != [] {
      var m1 := GrowStep(m, coins[0]);
      GrowFrame(m, coins[0]);
      if m.queue != [] {
        GrowPastBudget(m, coins[0]);
      }
      BudgetDrainsQueue(m1, coins[1..]);
    }
  }
}

/** Integer plane geometry of the growth algorithm: growth points, branches
    and the end-point collision test (`IntersectWithArray`). */
module Geometry {

  /** A growth point. Every coordinate the algorithm reaches is an integer:
      the root is (0, 400) and every step moves by a multiple of 10. */
  datatype Point = Point(x: int, y: int)

  /** A committed line segment, drawn from `begin` to `end`. */
  datatype Branch = Branch(begin: Point, end: Point)

  /** `c` collides with `lines` when its END point coincides with the begin
      or the end point of some line of `lines`. The begin point of `c` is
      never looked at, and this is not a segment intersection test. */
  predicate Collides(c: Branch, lines: seq<Branch>)
  {
    exists i :: 0 <= i < |lines| && (c.end == lines[i].end || c.end == lines[i].begin)
  }

  /** No line of `lines` ends where an earlier line begins or ends: the
      invariant the collision test keeps on the committed branches. */
  predicate NoCollisions(lines: seq<Branch>)
  {
    forall i :: 0 <= i < |lines| ==> !Collides(lines[i], lines[..i])
  }

  /** The collision test as the source runs it: a scan of `lines` in order
      that stops at the first line whose begin or end point is the end
      point of `line`. */
  method IntersectWithArray(line: Branch, lines: seq<Branch>) returns (hit: bool)
    ensures hit <==> Collides(line, lines)
    ensures lines == [] ==> !hit
  {
    var i := 0;
    while i < |lines|
      invariant 0 <= i <= |lines|
      invariant forall j :: 0 <= j < i ==> line.end != lines[j].end && line.end != lines[j].begin
    {
      if line.end == lines[i].end || line.end == lines[i].begin {
        return true;
      }
      i := i + 1;
    }
    return false;
  }

  /** Colliding with a concatenation is colliding with one of its parts. */
  lemma CollidesConcat(c: Branch, xs: seq<Branch>, ys: seq<Branch>)
    ensures Collides(c, xs + ys) <==> Collides(c, xs) || Collides(c, ys)
  {
    var s := xs + ys;
    if Collides(c, s) {
      var i :| 0 <= i < |s| && (c.end == s[i].end || c.end == s[i].begin);
      if i < |xs| {
        assert s[i] == xs[i];
      } else {
        assert s[i] == ys[i - |xs|];
      }
    }
    if Collides(c, xs) {
      var i :| 0 <= i < |xs| && (c.end == xs[i].end || c.end == xs[i].begin);
      assert s[i] == xs[i];
    }
    if Collides(c, ys) {
      var i :| 0 <= i < |ys| && (c.end == ys[i].end || c.end == ys[i].begin);
      assert s[|xs| + i] == ys[i];
    }
  }

  /** Appending `x` keeps the invariant exactly when `x` passes the
      collision test against the lines before it. */
  lemma NoCollisionsAppend(lines: seq<Branch>, x: Branch)
    ensures NoCollisions(lines + [x]) <==> NoCollisions(lines) && !Collides(x, lines)
  {
    var s := lines + [x];
    assert s[..|lines|] == lines;
    assert s[|lines|] == x;
    forall i | 0 <= i < |lines|
      ensures s[i] == lines[i] && s[..i] == lines[..i]
    {
    }
    if NoCollisions(s) {
      forall i | 0 <= i < |lines|
        ensures !Collides(lines[i], lines[..i])
      {
        assert !Collides(s[i], s[..i]);
      }
      assert !Collides(s[|lines|], s[..|lines|]);
    }
  }
}

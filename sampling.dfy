/** Vocabulary shared by the workers and the page: a random draw, the closed
    unit disk, and the (inside, total) aggregate that one batch reports. */
module Sampling {

  /** One draw: `Math.random() * 2 - 1` for each coordinate. */
  datatype Point = Point(x: real, y: real)

  /** The closed unit disk: a point on the circle itself counts as inside. */
  predicate InDisk(p: Point) {
    p.x * p.x + p.y * p.y <= 1.0
  }

  /** How many times a JavaScript `for (i = 0; i < n; i++)` loop runs. */
  function Max0(n: int): nat {
    if n < 0 then 0 else n
  }

  /** Number of draws in `ps` that land in the disk. */
  function CountInside(ps: seq<Point>): (n: nat)
    ensures n <= |ps|
  {
    if ps == [] then 0
    else CountInside(ps[..|ps| - 1]) + (if InDisk(ps[|ps| - 1]) then 1 else 0)
  }

  /** Counting one more draw: the step a sampling loop takes. */
  lemma CountInsidePrefix(ps: seq<Point>, i: nat)
    requires i < |ps|
    ensures CountInside(ps[..i + 1]) == CountInside(ps[..i]) + (if InDisk(ps[i]) then 1 else 0)
  {
    assert ps[..i + 1][..i] == ps[..i];
  }

  /** Every draw is counted exactly when every draw lies in the disk. */
  lemma {:induction false} CountInsideAll(ps: seq<Point>)
    ensures CountInside(ps) == |ps| <==> forall i :: 0 <= i < |ps| ==> InDisk(ps[i])
  {
    if ps != [] {
      var init := ps[..|ps| - 1];
      CountInsideAll(init);
      assert forall i :: 0 <= i < |init| ==> init[i] == ps[i];
    }
  }

  /** No draw is counted exactly when no draw lies in the disk. */
  lemma {:induction false} CountInsideNone(ps: seq<Point>)
    ensures CountInside(ps) == 0 <==> forall i :: 0 <= i < |ps| ==> !InDisk(ps[i])
  {
    if ps != [] {
      var init := ps[..|ps| - 1];
      CountInsideNone(init);
      assert forall i :: 0 <= i < |init| ==> init[i] == ps[i];
    }
  }

  /** Draws that fall exactly on the unit circle are all counted as inside. */
  lemma BoundaryCountsAsInside(ps: seq<Point>)
    requires forall i :: 0 <= i < |ps| ==> ps[i].x * ps[i].x + ps[i].y * ps[i].y == 1.0
    ensures CountInside(ps) == |ps|
  {
    CountInsideAll(ps);
  }

  /** The message `{inside, total}` a batch posts. */
  datatype BatchResult = BatchResult(inside: int, total: int)

  /** What every honest batch satisfies. */
  predicate WellFormed(r: BatchResult) {
    0 <= r.inside <= r.total
  }

  /** The result a batch of `n` draws taken from `ps` posts: `total` is `n`
      itself, `inside` counts the draws the loop actually made. */
  function Batch(ps: seq<Point>, n: int): BatchResult
    requires n <= |ps|
  {
    BatchResult(CountInside(ps[..Max0(n)]), n)
  }

  /** A batch of non-negative size posts a well-formed result; a batch of
      size 0 posts `{inside: 0, total: 0}`. */
  lemma {:induction false} BatchBounds(ps: seq<Point>, n: int)
    requires 0 <= n <= |ps|
    ensures WellFormed(Batch(ps, n)) && Batch(ps, n).total == n
    ensures n == 0 ==> Batch(ps, n) == BatchResult(0, 0)
  {
    assert ps[..0] == [];
  }

  /** Component-wise sum of two results. */
  function Add(a: BatchResult, b: BatchResult): BatchResult {
    BatchResult(a.inside + b.inside, a.total + b.total)
  }

  /** The sum of a sequence of results. */
  function Combine(rs: seq<BatchResult>): BatchResult {
    if rs == [] then BatchResult(0, 0) else Add(rs[0], Combine(rs[1..]))
  }

  lemma {:induction false} CombineConcat(a: seq<BatchResult>, b: seq<BatchResult>)
    ensures Combine(a + b) == Add(Combine(a), Combine(b))
  {
    if a != [] {
      assert (a + b)[1..] == a[1..] + b;
      CombineConcat(a[1..], b);
    } else {
      assert a + b == b;
    }
  }

  /** Taking out the element at `j` leaves the rest of the multiset. */
  lemma RemoveAtMultiset(qs: seq<BatchResult>, j: nat)
    requires j < |qs|
    ensures multiset(qs[..j] + qs[j + 1..]) == multiset(qs) - multiset{qs[j]}
  {
    assert qs == qs[..j] + [qs[j]] + qs[j + 1..];
  }

  /** Taking out the element at `j` leaves the rest of the sum. */
  lemma RemoveAtCombine(qs: seq<BatchResult>, j: nat)
    requires j < |qs|
    ensures Combine(qs) == Add(qs[j], Combine(qs[..j] + qs[j + 1..]))
  {
    var front, x, back := qs[..j], qs[j], qs[j + 1..];
    var tail := [x] + back;
    assert qs == front + tail;
    assert tail[1..] == back;
    calc {
      Combine(qs);
      Combine(front + tail);
      { CombineConcat(front, tail); }
      Add(Combine(front), Combine(tail));
      Add(Combine(front), Add(x, Combine(back)));
      Add(x, Add(Combine(front), Combine(back)));
      { CombineConcat(front, back); }
      Add(x, Combine(front + back));
    }
  }

  /** The sum does not depend on the order the results arrive in. */
  lemma {:induction false} CombinePermutation(rs: seq<BatchResult>, qs: seq<BatchResult>)
    requires multiset(rs) == multiset(qs)
    ensures Combine(rs) == Combine(qs)
    decreases |rs|
  {
    if rs == [] {
      assert |qs| == |multiset(qs)| == 0;
    } else {
      var x := rs[0];
      assert rs == [x] + rs[1..];
      assert x in multiset(qs);
      var j :| 0 <= j < |qs| && qs[j] == x;
      RemoveAtMultiset(qs, j);
      RemoveAtCombine(qs, j);
      assert multiset(rs[1..]) == multiset(rs) - multiset{x};
      CombinePermutation(rs[1..], qs[..j] + qs[j + 1..]);
    }
  }

  /** Summing well-formed results gives a well-formed result. */
  lemma {:induction false} CombineWellFormed(rs: seq<BatchResult>)
    requires forall i :: 0 <= i < |rs| ==> WellFormed(rs[i])
    ensures WellFormed(Combine(rs))
  {
    if rs != [] {
      CombineWellFormed(rs[1..]);
    }
  }
}

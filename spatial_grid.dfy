/** The uniform 20 x 20 bucket grid over the field particles: how a position becomes a
    clamped cell index, what a rebuilt bucket holds, and which cells one particle scans. */
module SpatialGrid {
  import opened Geometry
  import opened Scene
  import opened Sequences

  /** A field particle; `indexX`/`indexY` are `spacePartitioningIndexX/Y`, the cell cached
      by the last grid rebuild. */
  datatype Particle = Particle(pos: Vec2, vel: Vec2, myID: int, indexX: int, indexY: int)

  const ResX: int := 20
  const ResY: int := 20
  /** `screenWidth / spacePartitioningResX` and `screenHeight / spacePartitioningResY`. */
  const GridWidth: real := 40.0
  const GridHeight: real := 24.0

  /** Line connection radius and its square. */
  const LineMaxDistance: real := 90.0
  const LineMaxDistanceSq: real := 8100.0

  /** `ceil(lineConnectionMaxDistance / spacePartitioningGridWidth)` and the same for height. */
  const IndexDistanceX: int := 3
  const IndexDistanceY: int := 4

  lemma GridSizing()
    ensures GridWidth == ScreenWidth / ResX as real && GridHeight == ScreenHeight / ResY as real
    ensures LineMaxDistanceSq == LineMaxDistance * LineMaxDistance
    ensures (IndexDistanceX - 1) as real < LineMaxDistance / GridWidth <= IndexDistanceX as real
    ensures (IndexDistanceY - 1) as real < LineMaxDistance / GridHeight <= IndexDistanceY as real
  {
  }

  /** The cell of one coordinate: the `int` conversion of `coord / size`, clamped into
      `[0, res - 1]`. */
  function CellIndex(coord: real, size: real, res: int): (c: int)
    requires size > 0.0 && res > 0
    ensures 0 <= c < res
    ensures 0.0 <= coord < res as real * size ==> c as real * size <= coord < (c + 1) as real * size
  {
    CellIndexCovers(coord, size, res);
    Clamp(Trunc(coord / size), 0, res - 1)
  }

  lemma CellIndexCovers(coord: real, size: real, res: int)
    requires size > 0.0 && res > 0
    ensures var c := Clamp(Trunc(coord / size), 0, res - 1);
      0.0 <= coord < res as real * size ==> c as real * size <= coord < (c + 1) as real * size
  {
    var q := coord / size;
    assert q * size == coord;
    if 0.0 <= coord < res as real * size {
      MulMonotone(0.0, q, size);
      MulMonotone(q, res as real, size);
      var t := Trunc(q);
      assert 0 <= t < res;
      RemainderBelow(coord, size, q, t as real);
      calc {
        (t + 1) as real * size;
        (t as real + 1.0) * size;
        t as real * size + size;
      }
    }
  }

  /** Truncation and flooring differ only below zero, where the clamp maps both to 0. */
  lemma TruncMatchesFloorUnderClamp(q: real, res: int)
    requires res > 0
    ensures Clamp(Trunc(q), 0, res - 1) == Clamp(q.Floor, 0, res - 1)
  {
    if q < 0.0 {
      assert q.Floor < 0;
    }
  }

  predicate InGrid(p: Particle) { 0 <= p.indexX < ResX && 0 <= p.indexY < ResY }

  /** A particle with its cell recomputed from its current position. */
  function Indexed(p: Particle): (q: Particle)
    ensures q.pos == p.pos && q.vel == p.vel && q.myID == p.myID
    ensures InGrid(q)
    ensures q.indexX == CellIndex(p.pos.x, GridWidth, ResX) && q.indexY == CellIndex(p.pos.y, GridHeight, ResY)
  {
    p.(indexX := CellIndex(p.pos.x, GridWidth, ResX), indexY := CellIndex(p.pos.y, GridHeight, ResY))
  }

  function IndexAll(ps: seq<Particle>): (qs: seq<Particle>)
    ensures |qs| == |ps| && forall i :: 0 <= i < |ps| ==> qs[i] == Indexed(ps[i])
  {
    seq(|ps|, i requires 0 <= i < |ps| => Indexed(ps[i]))
  }

  predicate InCell(p: Particle, x: int, y: int) { p.indexX == x && p.indexY == y }

  /** The bucket of cell `(x, y)` after inserting the first `n` particles of the pool in
      order: the indices of those whose cached cell is `(x, y)`, in pool order. */
  function BucketUpTo(ps: seq<Particle>, x: int, y: int, n: nat): seq<nat>
    requires n <= |ps|
    decreases n
  {
    if n == 0 then []
    else BucketUpTo(ps, x, y, n - 1) + (if InCell(ps[n - 1], x, y) then [n - 1] else [])
  }

  /** The bucket of cell `(x, y)` once the whole pool `ps` is inserted. */
  function Bucket(ps: seq<Particle>, x: int, y: int): (b: seq<nat>)
    ensures forall k :: 0 <= k < |b| ==> b[k] < |ps| && InCell(ps[b[k]], x, y)
  {
    BucketUpToMembers(ps, x, y, |ps|);
    BucketUpTo(ps, x, y, |ps|)
  }

  lemma {:induction false} BucketUpToMembers(ps: seq<Particle>, x: int, y: int, n: nat)
    requires n <= |ps|
    ensures forall k :: 0 <= k < |BucketUpTo(ps, x, y, n)| ==>
              BucketUpTo(ps, x, y, n)[k] < n && InCell(ps[BucketUpTo(ps, x, y, n)[k]], x, y)
    decreases n
  {
    if n > 0 {
      BucketUpToMembers(ps, x, y, n - 1);
      var pre, tail := BucketUpTo(ps, x, y, n - 1), if InCell(ps[n - 1], x, y) then [n - 1] else [];
      assert BucketUpTo(ps, x, y, n) == pre + tail;
    }
  }

  /** A bucket depends only on the particles inserted so far. */
  lemma {:induction false} BucketUpToAgree(ps: seq<Particle>, qs: seq<Particle>, x: int, y: int, n: nat)
    requires n <= |ps| && n <= |qs| && ps[..n] == qs[..n]
    ensures BucketUpTo(ps, x, y, n) == BucketUpTo(qs, x, y, n)
    decreases n
  {
    if n > 0 {
      assert ps[n - 1] == ps[..n][n - 1] == qs[..n][n - 1] == qs[n - 1];
      assert ps[..n - 1] == ps[..n][..n - 1] == qs[..n][..n - 1] == qs[..n - 1];
      BucketUpToAgree(ps, qs, x, y, n - 1);
    }
  }

  /** Every inserted index occurs exactly once in the bucket of its own cell and in no other. */
  lemma {:induction false} BucketUpToCount(ps: seq<Particle>, x: int, y: int, n: nat, j: nat)
    requires n <= |ps|
    ensures Occurrences<nat>(BucketUpTo(ps, x, y, n), j) == if j < n && InCell(ps[j], x, y) then 1 else 0
    decreases n
  {
    if n > 0 {
      BucketUpToCount(ps, x, y, n - 1, j);
      var pre, tail := BucketUpTo(ps, x, y, n - 1), if InCell(ps[n - 1], x, y) then [n - 1] else [];
      OccurrencesAppend<nat>(pre, tail, j);
      if InCell(ps[n - 1], x, y) {
        OccurrencesSingle<nat>(n - 1, j);
      } else {
        assert Occurrences<nat>(tail, j) == 0;
      }
    }
  }

  lemma BucketCount(ps: seq<Particle>, x: int, y: int, j: nat)
    ensures Occurrences<nat>(Bucket(ps, x, y), j) == if j < |ps| && InCell(ps[j], x, y) then 1 else 0
  {
    BucketUpToCount(ps, x, y, |ps|, j);
  }

  lemma BucketMember(ps: seq<Particle>, x: int, y: int, j: nat)
    ensures j in Bucket(ps, x, y) <==> j < |ps| && InCell(ps[j], x, y)
    ensures multiset(Bucket(ps, x, y))[j] <= 1
  {
    BucketCount(ps, x, y, j);
    OccurrencesMember(Bucket(ps, x, y), j);
    OccurrencesMultiset(Bucket(ps, x, y), j);
  }

  /** One axis of a scan window: `[start, end)`, both ends clamped into `[0, res - 1]`. */
  datatype Span = Span(start: int, end: int)

  predicate InSpan(s: Span, t: int) { s.start <= t < s.end }

  function WindowSpan(c: int, d: int, res: int): (s: Span)
    requires res > 0
    ensures 0 <= s.start < res && 0 <= s.end < res
  {
    Span(Clamp(c - d, 0, res - 1), Clamp(c + d, 0, res - 1))
  }

  /** For a cell inside the grid the scanned cells are those within `d` on the low side,
      strictly within `d` on the high side, and never the last one (`res - 1`). */
  lemma WindowSpanMembers(c: int, d: int, res: int, t: int)
    requires res > 0 && 0 <= c < res && d >= 0
    ensures InSpan(WindowSpan(c, d, res), t) <==> 0 <= t && c - d <= t && t < c + d && t < res - 1
  {
  }

  /** In particular a particle scans its own column (row) exactly when that is not the last. */
  lemma OwnCellScanned(c: int, d: int, res: int)
    requires res > 0 && 0 <= c < res && d >= 1
    ensures InSpan(WindowSpan(c, d, res), c) <==> c < res - 1
  {
    WindowSpanMembers(c, d, res, c);
  }

  /** Two non-negative coordinates closer than the radius fall into cells at most
      `ceil(radius / size)` apart: the reach `d` is wide enough on both sides. */
  lemma CellsWithinReach(a: real, b: real, size: real, res: int, radius: real, d: int)
    requires size > 0.0 && res > 0 && 0.0 <= a && 0.0 <= b
    requires radius / size <= d as real
    requires a - b < radius && b - a < radius
    ensures CellIndex(b, size, res) - d <= CellIndex(a, size, res) <= CellIndex(b, size, res) + d
  {
    QuotientDiffBelow(a, b, size, radius);
    QuotientDiffBelow(b, a, size, radius);
    QuotientSign(a, size);
    QuotientSign(b, size);
    TruncWithin(a / size, b / size, d);
    TruncWithin(b / size, a / size, d);
  }

  /** Dividing by a positive size keeps a bound on a difference. */
  lemma QuotientDiffBelow(a: real, b: real, size: real, radius: real)
    requires size > 0.0 && a - b < radius
    ensures a / size - b / size < radius / size
  {
    var e, k := a / size - b / size, radius / size;
    assert e * size == a - b;
    assert k * size == radius;
    MulMonotone(e, k, size);
  }

  /** Non-negative reals less than `d` apart truncate to integers at most `d` apart. */
  lemma TruncWithin(qa: real, qb: real, d: int)
    requires 0.0 <= qa && 0.0 <= qb && qa - qb < d as real
    ensures Trunc(qa) - Trunc(qb) <= d
  {
  }
}

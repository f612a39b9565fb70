/** The proximity line graph of the field: which segments one pass over the rebuilt grid
    emits, in emission order, and what that set is. */
module LineGraph {
  import opened Geometry
  import opened SpatialGrid
  import opened Sequences

  /** One emitted line, from the scanning particle to a particle found in a bucket
      (both as pool indices). */
  datatype Segment = Segment(from: nat, to: nat)

  /** The test of the innermost loop: different identities and squared distance below 90². */
  predicate Connects(p: Particle, q: Particle) {
    p.myID != q.myID && DistSq(p.pos, q.pos) < LineMaxDistanceSq
  }

  /** The columns and rows particle `p` scans around its cached cell. */
  function ScanX(p: Particle): Span { WindowSpan(p.indexX, IndexDistanceX, ResX) }
  function ScanY(p: Particle): Span { WindowSpan(p.indexY, IndexDistanceY, ResY) }

  predicate InWindow(p: Particle, q: Particle) {
    InSpan(ScanX(p), q.indexX) && InSpan(ScanY(p), q.indexY)
  }

  /** The segments a complete pass emits, characterised without the loops. */
  predicate Linked(ps: seq<Particle>, s: Segment) {
    s.from < |ps| && s.to < |ps| && InWindow(ps[s.from], ps[s.to]) && Connects(ps[s.from], ps[s.to])
  }

  predicate AllBelow(b: seq<nat>, n: int) { forall k :: 0 <= k < |b| ==> b[k] < n }

  predicate WithinPool(segs: seq<Segment>, n: int) {
    forall k :: 0 <= k < |segs| ==> segs[k].from < n && segs[k].to < n
  }

  /** The segments from particle `i` to the (connecting) members of one bucket. */
  function BucketSegments(ps: seq<Particle>, i: nat, b: seq<nat>): (segs: seq<Segment>)
    requires i < |ps| && AllBelow(b, |ps|)
    decreases |b|
  {
    if |b| == 0 then []
    else
      var j := b[|b| - 1];
      BucketSegments(ps, i, b[..|b| - 1]) + (if Connects(ps[i], ps[j]) then [Segment(i, j)] else [])
  }

  /** Columns `x0 <= x' < x` of row `y`, in increasing column order. */
  function RowSegments(ps: seq<Particle>, i: nat, y: int, x0: int, x: int): (segs: seq<Segment>)
    requires i < |ps|
    decreases x - x0
  {
    if x <= x0 then []
    else RowSegments(ps, i, y, x0, x - 1) + BucketSegments(ps, i, Bucket(ps, x - 1, y))
  }

  /** Rows `y0 <= y' < y`, each over columns `[x0, x1)`. */
  function WindowSegments(ps: seq<Particle>, i: nat, y0: int, y: int, x0: int, x1: int): (segs: seq<Segment>)
    requires i < |ps|
    decreases y - y0
  {
    if y <= y0 then []
    else WindowSegments(ps, i, y0, y - 1, x0, x1) + RowSegments(ps, i, y - 1, x0, x1)
  }

  function ParticleSegments(ps: seq<Particle>, i: nat): (segs: seq<Segment>)
    requires i < |ps|
  {
    WindowSegments(ps, i, ScanY(ps[i]).start, ScanY(ps[i]).end, ScanX(ps[i]).start, ScanX(ps[i]).end)
  }

  /** What the pass of each particle emits, by pool index. */
  function Emissions(ps: seq<Particle>): (parts: seq<seq<Segment>>)
    ensures |parts| == |ps| && forall i :: 0 <= i < |ps| ==> parts[i] == ParticleSegments(ps, i)
  {
    seq(|ps|, i requires 0 <= i < |ps| => ParticleSegments(ps, i))
  }

  /** Everything emitted for the first `n` particles of the pool, in emission order. */
  function Segments(ps: seq<Particle>, n: nat): seq<Segment>
    requires n <= |ps|
  {
    Flatten(Emissions(ps)[..n])
  }

  predicate ConnectsTo(ps: seq<Particle>, i: nat, s: Segment) {
    i < |ps| && s.from == i && s.to < |ps| && Connects(ps[i], ps[s.to])
  }

  lemma {:induction false} BucketSegmentsCount(ps: seq<Particle>, i: nat, b: seq<nat>, s: Segment)
    requires i < |ps| && AllBelow(b, |ps|)
    ensures Occurrences(BucketSegments(ps, i, b), s) == if ConnectsTo(ps, i, s) then Occurrences<nat>(b, s.to) else 0
    decreases |b|
  {
    if |b| > 0 {
      var n := |b| - 1;
      var j := b[n];
      BucketSegmentsCount(ps, i, b[..n], s);
      OccurrencesAppend(BucketSegments(ps, i, b[..n]), if Connects(ps[i], ps[j]) then [Segment(i, j)] else [], s);
    }
  }

  lemma {:induction false} RowSegmentsCount(ps: seq<Particle>, i: nat, y: int, x0: int, x: int, s: Segment)
    requires i < |ps|
    ensures Occurrences(RowSegments(ps, i, y, x0, x), s) ==
      if ConnectsTo(ps, i, s) && x0 <= ps[s.to].indexX < x && ps[s.to].indexY == y then 1 else 0
    decreases x - x0
  {
    if x > x0 {
      RowSegmentsCount(ps, i, y, x0, x - 1, s);
      BucketSegmentsCount(ps, i, Bucket(ps, x - 1, y), s);
      BucketCount(ps, x - 1, y, s.to);
      OccurrencesAppend(RowSegments(ps, i, y, x0, x - 1), BucketSegments(ps, i, Bucket(ps, x - 1, y)), s);
    }
  }

  lemma {:induction false} WindowSegmentsCount(ps: seq<Particle>, i: nat, y0: int, y: int, x0: int, x1: int, s: Segment)
    requires i < |ps|
    ensures Occurrences(WindowSegments(ps, i, y0, y, x0, x1), s) ==
      if ConnectsTo(ps, i, s) && x0 <= ps[s.to].indexX < x1 && y0 <= ps[s.to].indexY < y then 1 else 0
    decreases y - y0
  {
    if y > y0 {
      WindowSegmentsCount(ps, i, y0, y - 1, x0, x1, s);
      RowSegmentsCount(ps, i, y - 1, x0, x1, s);
      OccurrencesAppend(WindowSegments(ps, i, y0, y - 1, x0, x1), RowSegments(ps, i, y - 1, x0, x1), s);
    }
  }

  /** The pass of particle `i` emits exactly the linked segments that start at `i`. */
  lemma ParticleSegmentsCount(ps: seq<Particle>, i: nat, s: Segment)
    requires i < |ps|
    ensures Occurrences(ParticleSegments(ps, i), s) == if s.from == i && Linked(ps, s) then 1 else 0
  {
    var sx, sy := ScanX(ps[i]), ScanY(ps[i]);
    WindowSegmentsCount(ps, i, sy.start, sy.end, sx.start, sx.end, s);
  }

  /** Each linked ordered pair is emitted exactly once, and nothing else is emitted. */
  lemma SegmentsCount(ps: seq<Particle>, n: nat, s: Segment)
    requires n <= |ps|
    ensures multiset(Segments(ps, n))[s] == if s.from < n && Linked(ps, s) then 1 else 0
  {
    SegmentsOccurrences(ps, n, s);
    OccurrencesMultiset(Segments(ps, n), s);
  }

  lemma SegmentsOccurrences(ps: seq<Particle>, n: nat, s: Segment)
    requires n <= |ps|
    ensures Occurrences(Segments(ps, n), s) == if s.from < n && Linked(ps, s) then 1 else 0
  {
    var parts := Emissions(ps)[..n];
    forall i | 0 <= i < n
      ensures Occurrences(parts[i], s) == if i == s.from && Linked(ps, s) then 1 else 0
    {
      ParticleSegmentsCount(ps, i, s);
    }
    FlattenOccurrences(parts, s, s.from, Linked(ps, s));
  }

  lemma SegmentsWithinPool(ps: seq<Particle>, n: nat)
    requires n <= |ps|
    ensures WithinPool(Segments(ps, n), |ps|)
  {
    var segs := Segments(ps, n);
    forall k | 0 <= k < |segs|
      ensures segs[k].from < |ps| && segs[k].to < |ps|
    {
      SegmentsOccurrences(ps, n, segs[k]);
      OccurrencesMember(segs, segs[k]);
    }
  }

  lemma SegmentsMember(ps: seq<Particle>, s: Segment)
    ensures s in Segments(ps, |ps|) <==> Linked(ps, s)
  {
    SegmentsOccurrences(ps, |ps|, s);
    OccurrencesMember(Segments(ps, |ps|), s);
  }

  /** No de-duplication: a pair that lies in each other's window is drawn twice, once from
      each end. */
  lemma BothDirectionsEmitted(ps: seq<Particle>, i: nat, j: nat)
    requires Linked(ps, Segment(i, j)) && Linked(ps, Segment(j, i))
    ensures Segment(i, j) in Segments(ps, |ps|) && Segment(j, i) in Segments(ps, |ps|)
    ensures i != j
  {
    SegmentsMember(ps, Segment(i, j));
    SegmentsMember(ps, Segment(j, i));
  }

  /** Two particles cached in the last column never connect, however close they are:
      the scanned columns stop before `ResX - 1`. The same holds for the last row. */
  lemma LastColumnNeverLinked(ps: seq<Particle>, i: nat, j: nat)
    requires i < |ps| && j < |ps| && InGrid(ps[i])
    requires ps[i].indexX == ResX - 1 && ps[j].indexX == ResX - 1
    ensures Segment(i, j) !in Segments(ps, |ps|)
  {
    WindowSpanMembers(ps[i].indexX, IndexDistanceX, ResX, ps[j].indexX);
    SegmentsMember(ps, Segment(i, j));
  }

  lemma LastRowNeverLinked(ps: seq<Particle>, i: nat, j: nat)
    requires i < |ps| && j < |ps| && InGrid(ps[i])
    requires ps[i].indexY == ResY - 1 && ps[j].indexY == ResY - 1
    ensures Segment(i, j) !in Segments(ps, |ps|)
  {
    WindowSpanMembers(ps[i].indexY, IndexDistanceY, ResY, ps[j].indexY);
    SegmentsMember(ps, Segment(i, j));
  }

  /** A concrete pool of two particles one pixel apart near the right edge: they pass the
      distance test, yet neither pass emits a segment between them. */
  lemma CloseParticlesMissed(ps: seq<Particle>)
    requires ps == [Particle(Vec2(790.0, 100.0), Zero, 0, 19, 4), Particle(Vec2(791.0, 100.0), Zero, 1, 19, 4)]
    ensures Connects(ps[0], ps[1]) && Connects(ps[1], ps[0])
    ensures Segment(0, 1) !in Segments(ps, 2) && Segment(1, 0) !in Segments(ps, 2)
  {
    assert DistSq(ps[0].pos, ps[1].pos) == 1.0 && DistSq(ps[1].pos, ps[0].pos) == 1.0;
    LastColumnNeverLinked(ps, 0, 1);
    LastColumnNeverLinked(ps, 1, 0);
  }

  lemma CloseParticlesIndexed(ps: seq<Particle>)
    requires ps == [Particle(Vec2(790.0, 100.0), Zero, 0, 19, 4), Particle(Vec2(791.0, 100.0), Zero, 1, 19, 4)]
    ensures ps[0] == Indexed(ps[0]) && ps[1] == Indexed(ps[1])
  {
    CellIndexCovers(790.0, GridWidth, ResX);
    CellIndexCovers(791.0, GridWidth, ResX);
    CellIndexCovers(100.0, GridHeight, ResY);
  }

  /** The reach `ceil(90 / cell size)` is wide enough: a particle closer than 90 to `p`
      always sits in the closed window `[start, end]` around `p`'s cell, provided both carry
      the cells of their current, non-negative positions. */
  lemma NearPairInClosedWindow(p: Particle, q: Particle)
    requires p == Indexed(p) && q == Indexed(q)
    requires p.pos.x >= 0.0 && p.pos.y >= 0.0 && q.pos.x >= 0.0 && q.pos.y >= 0.0
    requires DistSq(p.pos, q.pos) < LineMaxDistanceSq
    ensures ScanX(p).start <= q.indexX <= ScanX(p).end
    ensures ScanY(p).start <= q.indexY <= ScanY(p).end
  {
    var dx, dy := p.pos.x - q.pos.x, p.pos.y - q.pos.y;
    SquareNonNegative(dx);
    SquareNonNegative(dy);
    AxisBelowRadius(dx, dx * dx + dy * dy);
    AxisBelowRadius(dy, dx * dx + dy * dy);
    CellsWithinReach(q.pos.x, p.pos.x, GridWidth, ResX, LineMaxDistance, IndexDistanceX);
    CellsWithinReach(q.pos.y, p.pos.y, GridHeight, ResY, LineMaxDistance, IndexDistanceY);
  }

  lemma AxisBelowRadius(e: real, sq: real)
    requires e * e <= sq < LineMaxDistanceSq
    ensures -LineMaxDistance < e < LineMaxDistance
  {
    if e >= 0.0 {
      SquareBelow(e, LineMaxDistance);
    } else {
      assert (-e) * (-e) == e * e;
      SquareBelow(-e, LineMaxDistance);
    }
  }

  /** So the half-open window bounds are the only reason a close pair is not emitted:
      unless `q` sits on the excluded end column or row of `p`'s window, the segment from
      `p` to `q` is drawn. */
  lemma NearPairEmittedOffWindowEnd(ps: seq<Particle>, i: nat, j: nat)
    requires i < |ps| && j < |ps| && ps[i] == Indexed(ps[i]) && ps[j] == Indexed(ps[j])
    requires ps[i].pos.x >= 0.0 && ps[i].pos.y >= 0.0 && ps[j].pos.x >= 0.0 && ps[j].pos.y >= 0.0
    requires Connects(ps[i], ps[j])
    requires ps[j].indexX != ScanX(ps[i]).end && ps[j].indexY != ScanY(ps[i]).end
    ensures Segment(i, j) in Segments(ps, |ps|)
  {
    NearPairInClosedWindow(ps[i], ps[j]);
    SegmentsMember(ps, Segment(i, j));
  }

  /** The two vertices each segment adds to the line mesh, in emission order. */
  function MeshVertices(ps: seq<Particle>, segs: seq<Segment>): (vs: seq<Vec2>)
    ensures |vs| == 2 * |segs|
  {
    seq(2 * |segs|, k requires 0 <= k < 2 * |segs| => EndPoint(ps, segs[k / 2], k % 2 == 0))
  }

  /** The position of a segment's start or end; every emitted segment lies within the
      pool (`SegmentsWithinPool`), so the fallback is never used by an emission. */
  function EndPoint(ps: seq<Particle>, s: Segment, start: bool): Vec2
  {
    var j := if start then s.from else s.to;
    if j < |ps| then ps[j].pos else Zero
  }

  /** Segment `k` contributes vertices `2k` (its start) and `2k + 1` (its end). */
  lemma MeshVerticesAt(ps: seq<Particle>, segs: seq<Segment>, k: int)
    requires WithinPool(segs, |ps|) && 0 <= k < |segs|
    ensures MeshVertices(ps, segs)[2 * k] == ps[segs[k].from].pos
    ensures MeshVertices(ps, segs)[2 * k + 1] == ps[segs[k].to].pos
  {
  }

  /** Appending a segment list appends its vertices. */
  lemma MeshVerticesAppend(ps: seq<Particle>, a: seq<Segment>, b: seq<Segment>)
    ensures MeshVertices(ps, a + b) == MeshVertices(ps, a) + MeshVertices(ps, b)
  {
    var ab := a + b;
    assert forall k :: 0 <= k < |ab| ==> ab[k] == if k < |a| then a[k] else b[k - |a|];
    var l, r := MeshVertices(ps, ab), MeshVertices(ps, a) + MeshVertices(ps, b);
    forall k | 0 <= k < |l|
      ensures l[k] == r[k]
    {
      if k >= 2 * |a| {
        assert (k - 2 * |a|) / 2 == k / 2 - |a|;
        assert (k - 2 * |a|) % 2 == k % 2;
      }
    }
  }

  /** The pool's emission grows particle by particle. */
  lemma SegmentsStep(ps: seq<Particle>, n: nat)
    requires n < |ps|
    ensures Segments(ps, n + 1) == Segments(ps, n) + ParticleSegments(ps, n)
  {
    assert Emissions(ps)[..n + 1][..n] == Emissions(ps)[..n];
  }

  /** The vertices of one segment. */
  lemma MeshPair(ps: seq<Particle>, i: nat, j: nat)
    requires i < |ps| && j < |ps|
    ensures MeshVertices(ps, [Segment(i, j)]) == [ps[i].pos, ps[j].pos]
  {
  }
}

/** The line mesh as the emission loops build it: the vertex pairs bucket by bucket, row
    by row and particle by particle, and the proof that a complete pass lays down exactly
    the two endpoints of every emitted segment. */
module LineMesh {
  import opened Geometry
  import opened SpatialGrid
  import opened LineGraph

  /** The vertices the scan of the first `k` members of bucket `b` appends for particle `i`. */
  function BucketVertices(ps: seq<Particle>, i: nat, b: seq<nat>, k: nat): seq<Vec2>
    requires i < |ps| && AllBelow(b, |ps|) && k <= |b|
    decreases k
  {
    if k == 0 then []
    else
      var j := b[k - 1];
      BucketVertices(ps, i, b, k - 1) + (if Connects(ps[i], ps[j]) then [ps[i].pos, ps[j].pos] else [])
  }

  /** Columns `x0 <= x' < x` of row `y`. */
  function RowVertices(ps: seq<Particle>, i: nat, y: int, x0: int, x: int): seq<Vec2>
    requires i < |ps|
    decreases x - x0
  {
    if x <= x0 then [] else RowVertices(ps, i, y, x0, x - 1) + CellVertices(ps, i, x - 1, y)
  }

  /** The vertices the scan of the whole bucket of cell `(x, y)` appends. */
  function CellVertices(ps: seq<Particle>, i: nat, x: int, y: int): seq<Vec2>
    requires i < |ps|
  {
    var b := Bucket(ps, x, y);
    BucketVertices(ps, i, b, |b|)
  }

  /** Rows `y0 <= y' < y`, each over columns `[x0, x1)`. */
  function WindowVertices(ps: seq<Particle>, i: nat, y0: int, y: int, x0: int, x1: int): seq<Vec2>
    requires i < |ps|
    decreases y - y0
  {
    if y <= y0 then [] else WindowVertices(ps, i, y0, y - 1, x0, x1) + RowVertices(ps, i, y - 1, x0, x1)
  }

  function ParticleVertices(ps: seq<Particle>, i: nat): seq<Vec2>
    requires i < |ps|
  {
    WindowVertices(ps, i, ScanY(ps[i]).start, ScanY(ps[i]).end, ScanX(ps[i]).start, ScanX(ps[i]).end)
  }

  /** The mesh after the first `n` particles of the pool have been scanned. */
  function PassVertices(ps: seq<Particle>, n: nat): seq<Vec2>
    requires n <= |ps|
  {
    if n == 0 then [] else PassVertices(ps, n - 1) + ParticleVertices(ps, n - 1)
  }

  lemma {:induction false} BucketVerticesMesh(ps: seq<Particle>, i: nat, b: seq<nat>, k: nat)
    requires i < |ps| && AllBelow(b, |ps|) && k <= |b|
    ensures AllBelow(b[..k], |ps|)
    ensures BucketVertices(ps, i, b, k) == MeshVertices(ps, BucketSegments(ps, i, b[..k]))
    decreases k
  {
    if k > 0 {
      var j := b[k - 1];
      BucketVerticesMesh(ps, i, b, k - 1);
      assert b[..k][..k - 1] == b[..k - 1];
      var added := if Connects(ps[i], ps[j]) then [Segment(i, j)] else [];
      MeshVerticesAppend(ps, BucketSegments(ps, i, b[..k - 1]), added);
      if Connects(ps[i], ps[j]) {
        MeshPair(ps, i, j);
      }
    }
  }

  lemma {:induction false} RowVerticesMesh(ps: seq<Particle>, i: nat, y: int, x0: int, x: int)
    requires i < |ps|
    ensures RowVertices(ps, i, y, x0, x) == MeshVertices(ps, RowSegments(ps, i, y, x0, x))
    decreases x - x0
  {
    if x > x0 {
      RowVerticesMesh(ps, i, y, x0, x - 1);
      var b := Bucket(ps, x - 1, y);
      BucketVerticesMesh(ps, i, b, |b|);
      assert b[..|b|] == b;
      MeshVerticesAppend(ps, RowSegments(ps, i, y, x0, x - 1), BucketSegments(ps, i, Bucket(ps, x - 1, y)));
    }
  }

  lemma {:induction false} WindowVerticesMesh(ps: seq<Particle>, i: nat, y0: int, y: int, x0: int, x1: int)
    requires i < |ps|
    ensures WindowVertices(ps, i, y0, y, x0, x1) == MeshVertices(ps, WindowSegments(ps, i, y0, y, x0, x1))
    decreases y - y0
  {
    if y > y0 {
      WindowVerticesMesh(ps, i, y0, y - 1, x0, x1);
      RowVerticesMesh(ps, i, y - 1, x0, x1);
      MeshVerticesAppend(ps, WindowSegments(ps, i, y0, y - 1, x0, x1), RowSegments(ps, i, y - 1, x0, x1));
    }
  }

  lemma ParticleVerticesMesh(ps: seq<Particle>, i: nat)
    requires i < |ps|
    ensures ParticleVertices(ps, i) == MeshVertices(ps, ParticleSegments(ps, i))
  {
    var sx, sy := ScanX(ps[i]), ScanY(ps[i]);
    WindowVerticesMesh(ps, i, sy.start, sy.end, sx.start, sx.end);
  }

  /** A complete pass lays down the endpoints of the emitted segments, in emission order. */
  lemma {:induction false} PassVerticesMesh(ps: seq<Particle>, n: nat)
    requires n <= |ps|
    ensures PassVertices(ps, n) == MeshVertices(ps, Segments(ps, n))
  {
    if n == 0 {
      assert Segments(ps, 0) == [];
    } else {
      var before, added := Segments(ps, n - 1), ParticleSegments(ps, n - 1);
      PassVerticesMesh(ps, n - 1);
      ParticleVerticesMesh(ps, n - 1);
      SegmentsStep(ps, n - 1);
      MeshVerticesAppend(ps, before, added);
    }
  }
}

/** The generative field: 75 drifting particles, the bucket grid they are sorted into on
    every update, and the proximity line mesh built from it. */
module GenField {
  import opened Geometry
  import opened Scene
  import opened Sequences
  import opened SpatialGrid
  import opened LineGraph
  import opened LineMesh

  const ParticleAmount: int := 75

  /** `fmodf(x, screenWidth)`, moved one screen width right when it lands left of the field
      band. Positions that were already in the band stay put; everything lands strictly
      right of 0 but possibly beyond the right edge of the screen. */
  function WrapX(x: real): (r: real)
    ensures 0.0 < r < ScreenWidth + WaterFallAreaX as real
    ensures x >= 0.0 ==> WaterFallAreaX as real <= r
    ensures WaterFallAreaX as real <= x < ScreenWidth ==> r == x
  {
    var m := FMod(x, ScreenWidth);
    if m < WaterFallAreaX as real then m + ScreenWidth else m
  }

  /** `fmodf(y, screenHeight)`, moved one screen height down when negative. */
  function WrapY(y: real): (r: real)
    ensures 0.0 <= r < ScreenHeight
    ensures 0.0 <= y < ScreenHeight ==> r == y
  {
    var m := FMod(y, ScreenHeight);
    if m < 0.0 then m + ScreenHeight else m
  }

  /** A particle may sit anywhere right of 0 up to one band width past the screen, and
      anywhere within the screen's height. */
  predicate InField(p: Particle) {
    0.0 < p.pos.x < ScreenWidth + WaterFallAreaX as real && 0.0 <= p.pos.y < ScreenHeight
  }

  /** One integration step of `timeDelta` seconds followed by the wrap. */
  function Advance(p: Particle, dt: real): (q: Particle)
    ensures q.vel == p.vel && q.myID == p.myID && q.indexX == p.indexX && q.indexY == p.indexY
    ensures InField(q)
    ensures q.pos.x == WrapX(p.pos.x + p.vel.x * dt) && q.pos.y == WrapY(p.pos.y + p.vel.y * dt)
  {
    p.(pos := Vec2(WrapX(p.pos.x + p.vel.x * dt), WrapY(p.pos.y + p.vel.y * dt)))
  }

  function AdvanceAll(ps: seq<Particle>, dt: real): (qs: seq<Particle>)
    ensures |qs| == |ps| && forall i :: 0 <= i < |ps| ==> qs[i] == Advance(ps[i], dt)
  {
    seq(|ps|, i requires 0 <= i < |ps| => Advance(ps[i], dt))
  }

  /** A particle that drifts one pixel past the right edge is not wrapped: the remainder
      1 lies left of the band, so a screen width is added back. */
  lemma RightEdgeNotWrapped()
    ensures WrapX(801.0) == 801.0 && WrapX(801.0) > ScreenWidth
  {
    var q := 801.0 / ScreenWidth;
    assert q * ScreenWidth == 801.0;
    assert 1.0 <= q < 2.0;
    assert Trunc(q) == 1;
  }

  /** Such a particle is still filed into the last column, through the clamp. */
  lemma OffScreenParticleClamped(x: real)
    requires ScreenWidth <= x < ScreenWidth + WaterFallAreaX as real
    ensures CellIndex(x, GridWidth, ResX) == ResX - 1
  {
    var q := x / GridWidth;
    assert q * GridWidth == x;
    MulMonotone(20.0, q, GridWidth);
  }

  /** The line mesh while it is being built: the vertex pairs so far and the index buffer
      `0, 1, 2, ...` that numbers them. */
  predicate MeshShape(vs: seq<Vec2>, idx: seq<int>) { idx == Iota(|vs|) }

  /** Lines 284-291: two `addVertex` calls, then the numbers of the two new vertices
      as indices. */
  method AddLine(vs: seq<Vec2>, idx: seq<int>, a: Vec2, b: Vec2) returns (vs': seq<Vec2>, idx': seq<int>)
    requires MeshShape(vs, idx)
    ensures MeshShape(vs', idx') && vs' == vs + [a, b]
  {
    IotaExtend(|vs|);
    vs' := vs + [a, b];
    idx' := idx + [|vs'| - 2, |vs'| - 1];
  }

  /** Lines 274-295: the innermost loop over one bucket. For each other-identity
      particle closer than 90 it adds both positions and the two new vertex numbers. */
  method EmitBucket(ps: seq<Particle>, i: nat, b: seq<nat>, vs: seq<Vec2>, idx: seq<int>) returns (vs': seq<Vec2>, idx': seq<int>)
    requires i < |ps| && AllBelow(b, |ps|) && MeshShape(vs, idx)
    ensures MeshShape(vs', idx') && vs' == vs + BucketVertices(ps, i, b, |b|)
  {
    var p := ps[i];
    vs', idx' := vs, idx;
    var k := 0;
    while k < |b|
      invariant 0 <= k <= |b| && MeshShape(vs', idx')
      invariant vs' == vs + BucketVertices(ps, i, b, k)
    {
      var q := ps[b[k]];
      ghost var was := vs';
      if p.myID != q.myID {
        var diff := Sub(p.pos, q.pos);
        if LengthSq(diff) < LineMaxDistanceSq {
          vs', idx' := AddLine(vs', idx', p.pos, q.pos);
        }
      }
      ghost var added := if Connects(p, q) then [p.pos, q.pos] else [];
      assert vs' == was + added;
      AppendAssoc(vs, BucketVertices(ps, i, b, k), added);
      k := k + 1;
    }
  }

  /** The grid row `y` holds the rebuilt buckets of the pool `ps`. */
  predicate RowFilled(ps: seq<Particle>, grid: array2<seq<nat>>, y: int)
    reads grid
  {
    grid.Length0 == ResY && grid.Length1 == ResX && 0 <= y < ResY &&
    forall x :: 0 <= x < ResX ==> grid[y, x] == Bucket(ps, x, y)
  }

  /** The whole grid holds the rebuilt buckets of the pool `ps`. */
  predicate Filled(ps: seq<Particle>, grid: array2<seq<nat>>)
    reads grid
  {
    grid.Length0 == ResY && grid.Length1 == ResX &&
    forall y, x :: 0 <= y < ResY && 0 <= x < ResX ==> grid[y, x] == Bucket(ps, x, y)
  }

  lemma RowOf(ps: seq<Particle>, grid: array2<seq<nat>>, y: int)
    requires Filled(ps, grid) && 0 <= y < ResY
    ensures RowFilled(ps, grid, y)
  {
  }

  lemma BucketAt(ps: seq<Particle>, grid: array2<seq<nat>>, y: int, x: int)
    requires RowFilled(ps, grid, y) && 0 <= x < ResX
    ensures grid[y, x] == Bucket(ps, x, y) && AllBelow(grid[y, x], |ps|)
  {
  }

  /** Lines 272-296: the columns `[x0, x1)` of row `y`, bucket by bucket. */
  method EmitRow(ps: seq<Particle>, grid: array2<seq<nat>>, i: nat, y: int, x0: int, x1: int, vs: seq<Vec2>, idx: seq<int>)
    returns (vs': seq<Vec2>, idx': seq<int>)
    requires i < |ps| && RowFilled(ps, grid, y) && 0 <= x0 <= x1 <= ResX && MeshShape(vs, idx)
    ensures MeshShape(vs', idx') && vs' == vs + RowVertices(ps, i, y, x0, x1)
  {
    vs', idx' := vs, idx;
    var x := x0;
    while x < x1
      invariant x0 <= x <= x1 && MeshShape(vs', idx')
      invariant vs' == vs + RowVertices(ps, i, y, x0, x)
    {
      var b := grid[y, x];
      BucketAt(ps, grid, y, x);
      AppendAssoc(vs, RowVertices(ps, i, y, x0, x), BucketVertices(ps, i, b, |b|));
      vs', idx' := EmitBucket(ps, i, b, vs', idx');
      x := x + 1;
    }
  }

  /** Lines 258-268: the scan window around a particle's cached cell, each bound clamped
      into the grid as the source writes it. */
  method ScanBounds(p: Particle) returns (startX: int, endX: int, startY: int, endY: int)
    ensures ScanX(p) == Span(startX, endX) && ScanY(p) == Span(startY, endY)
  {
    startX := p.indexX - IndexDistanceX;
    if startX < 0 { startX := 0; }
    if startX >= ResX { startX := ResX - 1; }
    endX := p.indexX + IndexDistanceX;
    if endX < 0 { endX := 0; }
    if endX >= ResX { endX := ResX - 1; }
    startY := p.indexY - IndexDistanceY;
    if startY < 0 { startY := 0; }
    if startY >= ResY { startY := ResY - 1; }
    endY := p.indexY + IndexDistanceY;
    if endY < 0 { endY := 0; }
    if endY >= ResY { endY := ResY - 1; }
  }

  /** Lines 254-297: the scan of one particle, its window's rows and columns half-open. */
  method EmitParticle(ps: seq<Particle>, grid: array2<seq<nat>>, i: nat, vs: seq<Vec2>, idx: seq<int>)
    returns (vs': seq<Vec2>, idx': seq<int>)
    requires i < |ps| && MeshShape(vs, idx) && Filled(ps, grid)
    ensures MeshShape(vs', idx') && vs' == vs + ParticleVertices(ps, i)
  {
    var startX, endX, startY, endY := ScanBounds(ps[i]);
    vs', idx' := vs, idx;
    var y := startY;
    while y < endY
      invariant startY <= y <= endY && MeshShape(vs', idx')
      invariant vs' == vs + WindowVertices(ps, i, startY, y, startX, endX)
    {
      RowOf(ps, grid, y);
      AppendAssoc(vs, WindowVertices(ps, i, startY, y, startX, endX), RowVertices(ps, i, y, startX, endX));
      vs', idx' := EmitRow(ps, grid, i, y, startX, endX, vs', idx');
      y := y + 1;
    }
  }

  /** Lines 239-298 without the stores: the vertices and indices of a complete pass over
      the pool, particle by particle. */
  method EmitPass(ps: seq<Particle>, grid: array2<seq<nat>>) returns (vs: seq<Vec2>, idx: seq<int>)
    requires Filled(ps, grid)
    ensures MeshShape(vs, idx) && vs == MeshVertices(ps, Segments(ps, |ps|))
  {
    vs, idx := [], [];
    var i := 0;
    while i < |ps|
      invariant 0 <= i <= |ps| && MeshShape(vs, idx) && vs == PassVertices(ps, i)
    {
      vs, idx := EmitParticle(ps, grid, i, vs, idx);
      i := i + 1;
    }
    PassVerticesMesh(ps, |ps|);
  }

  /** Lines 220-230: the cell of a particle, a truncating division clamped into the grid. */
  method CellOf(p: Particle) returns (indexX: int, indexY: int)
    ensures p.(indexX := indexX, indexY := indexY) == Indexed(p)
  {
    indexX := Trunc(p.pos.x / GridWidth);
    indexY := Trunc(p.pos.y / GridHeight);
    if indexX < 0 { indexX := 0; }
    if indexX >= ResX { indexX := ResX - 1; }
    if indexY < 0 { indexY := 0; }
    if indexY >= ResY { indexY := ResY - 1; }
  }

  /** Filing particle `i` under its new cell extends exactly that cell's bucket. */
  lemma BucketsInsert(before: seq<Particle>, after: seq<Particle>, i: nat)
    requires i < |before| == |after| && before[..i] == after[..i]
    ensures forall y, x ::
              BucketUpTo(after, x, y, i + 1) == BucketUpTo(before, x, y, i) + (if InCell(after[i], x, y) then [i] else [])
  {
    forall y, x
      ensures BucketUpTo(after, x, y, i) == BucketUpTo(before, x, y, i)
    {
      BucketUpToAgree(after, before, x, y, i);
    }
  }

  /** The field object of the scene: the particle pool, the bucket grid and the line mesh. */
  class Field {
    const particles: array<Particle>
    const grid: array2<seq<nat>>
    var lineVertices: seq<Vec2>
    var lineIndices: seq<int>
    var currTime: real
    var timeDelta: real
    var lastUpdateTime: real

    predicate Valid()
      reads particles
    {
      particles.Length == ParticleAmount && grid.Length0 == ResY && grid.Length1 == ResX &&
      (forall i :: 0 <= i < particles.Length ==> particles[i].myID == i && InGrid(particles[i]) && InField(particles[i]))
    }

    /** Every bucket holds the pool indices of the particles whose cached cell it is. */
    predicate Partitioned()
      reads particles, grid
      requires Valid()
    {
      forall y, x :: 0 <= y < ResY && 0 <= x < ResX ==> grid[y, x] == Bucket(particles[..], x, y)
    }

    /** The mesh holds exactly the segments of one complete emission pass. */
    predicate MeshBuilt()
      reads this, particles
      requires Valid()
    {
      lineVertices == MeshVertices(particles[..], Segments(particles[..], particles.Length)) &&
      MeshShape(lineVertices, lineIndices)
    }

    /** `setupGenField`: the spawn positions and velocities are the draws of `ofRandom`
        (positions in the field band, speed 20 pixels per second); every cache index
        starts at 0 and the grid starts empty. */
    constructor (spawn: seq<Vec2>, velocities: seq<Vec2>, startTime: real)
      requires |spawn| == ParticleAmount && |velocities| == ParticleAmount
      requires forall i :: 0 <= i < |spawn| ==>
        WaterFallAreaX as real <= spawn[i].x < ScreenWidth && 0.0 <= spawn[i].y < ScreenHeight
      requires forall i :: 0 <= i < |velocities| ==> LengthSq(velocities[i]) == 400.0
      ensures Valid() && fresh(particles) && fresh(grid)
      ensures particles[..] == seq(ParticleAmount, i requires 0 <= i < ParticleAmount => Particle(spawn[i], velocities[i], i, 0, 0))
      ensures forall y, x :: 0 <= y < ResY && 0 <= x < ResX ==> grid[y, x] == []
      ensures lineVertices == [] && lineIndices == [] && lastUpdateTime == startTime
    {
      particles := new Particle[ParticleAmount](i requires 0 <= i < ParticleAmount => Particle(spawn[i], velocities[i], i, 0, 0));
      grid := new seq<nat>[ResY, ResX]((y, x) => []);
      lineVertices, lineIndices := [], [];
      currTime, timeDelta, lastUpdateTime := startTime, 0.0, startTime;
    }

    /** Lines 186-204: advance every particle by the time since the last update, then wrap. */
    method Integrate(now: real)
      requires Valid()
      modifies this`currTime, this`timeDelta, this`lastUpdateTime, particles
      ensures Valid()
      ensures timeDelta == now - old(lastUpdateTime) && currTime == now && lastUpdateTime == now
      ensures particles[..] == AdvanceAll(old(particles[..]), timeDelta)
    {
      currTime := now;
      timeDelta := currTime - lastUpdateTime;
      lastUpdateTime := currTime;
      var i := 0;
      while i < particles.Length
        modifies particles
        invariant 0 <= i <= particles.Length && Valid()
        invariant forall k :: 0 <= k < i ==> particles[k] == Advance(old(particles[k]), timeDelta)
        invariant forall k :: i <= k < particles.Length ==> particles[k] == old(particles[k])
      {
        particles[i] := Advance(particles[i], timeDelta);
        i := i + 1;
      }
      assert forall k :: 0 <= k < particles.Length ==> particles[..][k] == AdvanceAll(old(particles[..]), timeDelta)[k];
    }

    /** Lines 207-213: empty every bucket. */
    method ClearGrid()
      requires Valid()
      modifies grid
      ensures forall y, x :: 0 <= y < ResY && 0 <= x < ResX ==> grid[y, x] == []
    {
      var y := 0;
      while y < ResY
        invariant 0 <= y <= ResY
        invariant forall y', x' :: 0 <= y' < y && 0 <= x' < ResX ==> grid[y', x'] == []
      {
        var x := 0;
        while x < ResX
          invariant 0 <= x <= ResX
          invariant forall y', x' :: 0 <= y' < y && 0 <= x' < ResX ==> grid[y', x'] == []
          invariant forall x' :: 0 <= x' < x ==> grid[y, x'] == []
        {
          grid[y, x] := [];
          x := x + 1;
        }
        y := y + 1;
      }
    }

    /** Lines 217-232, the body of the insertion loop: recompute the cell of particle `i`
        and append `i` to that cell's bucket. */
    method FileParticle(i: int)
      requires Valid() && 0 <= i < particles.Length
      modifies particles, grid
      ensures Valid()
      ensures particles[..] == old(particles[..])[i := Indexed(old(particles[i]))]
      ensures forall y, x :: 0 <= y < ResY && 0 <= x < ResX ==>
                grid[y, x] == old(grid[y, x]) + (if InCell(particles[i], x, y) then [i] else [])
    {
      var p := particles[i];
      var indexX, indexY := CellOf(p);
      particles[i] := p.(indexX := indexX, indexY := indexY);
      grid[indexY, indexX] := grid[indexY, indexX] + [i];
    }

    /** Lines 216-233: file every particle, in pool order. */
    method InsertAll()
      requires Valid()
      requires forall y, x :: 0 <= y < ResY && 0 <= x < ResX ==> grid[y, x] == []
      modifies particles, grid
      ensures Valid() && Partitioned()
      ensures particles[..] == IndexAll(old(particles[..]))
    {
      var i := 0;
      while i < particles.Length
        invariant 0 <= i <= particles.Length && Valid()
        invariant forall k :: 0 <= k < i ==> particles[k] == Indexed(old(particles[k]))
        invariant forall k :: i <= k < particles.Length ==> particles[k] == old(particles[k])
        invariant forall y, x :: 0 <= y < ResY && 0 <= x < ResX ==> grid[y, x] == BucketUpTo(particles[..], x, y, i)
      {
        ghost var before := particles[..];
        label Filing:
        FileParticle(i);
        ghost var after := particles[..];
        BucketsInsert(before, after, i);
        forall y, x | 0 <= y < ResY && 0 <= x < ResX
          ensures grid[y, x] == BucketUpTo(after, x, y, i + 1)
        {
          assert old@Filing(grid[y, x]) == BucketUpTo(before, x, y, i);
        }
        i := i + 1;
      }
    }

    /** Lines 207-233: the grid rebuild. */
    method RebuildGrid()
      requires Valid()
      modifies particles, grid
      ensures Valid() && Partitioned()
      ensures particles[..] == IndexAll(old(particles[..]))
    {
      ClearGrid();
      InsertAll();
    }

    /** Lines 239-298: clear the mesh, then scan every particle in pool order. The mesh is
        built as a value and stored when the pass is complete. */
    method EmitLines()
      requires Valid() && Partitioned()
      modifies this`lineVertices, this`lineIndices
      ensures Valid() && Partitioned() && MeshBuilt() && particles[..] == old(particles[..])
    {
      var ps := particles[..];
      assert Filled(ps, grid);
      var vs, idx := EmitPass(ps, grid);
      lineVertices, lineIndices := vs, idx;
    }

    /** Lines 186-233: advance the particles, then rebuild the grid from their new cells. */
    method Refresh(now: real)
      requires Valid()
      modifies this`currTime, this`timeDelta, this`lastUpdateTime, particles, grid
      ensures Valid() && Partitioned()
      ensures currTime == now && lastUpdateTime == now && timeDelta == now - old(lastUpdateTime)
      ensures particles[..] == IndexAll(AdvanceAll(old(particles[..]), timeDelta))
    {
      Integrate(now);
      RebuildGrid();
    }

    /** `updateGenField`, lines 185-299: advance, rebuild the grid, rebuild the mesh. */
    method Update(now: real)
      requires Valid()
      modifies this`currTime, this`timeDelta, this`lastUpdateTime, this`lineVertices, this`lineIndices,
               particles, grid
      ensures Valid() && Partitioned() && MeshBuilt()
      ensures currTime == now && lastUpdateTime == now && timeDelta == now - old(lastUpdateTime)
      ensures particles[..] == IndexAll(AdvanceAll(old(particles[..]), timeDelta))
    {
      Refresh(now);
      EmitLines();
    }
  }
}

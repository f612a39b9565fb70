/** The waterfall: 50 droplets pushed rightwards across the left third of the screen,
    held between the channel walls `y = 160` and `y = 320`, recycled at the right edge of
    the band, and aged only in the second of the two lifespan zones: on an 800-pixel screen
    the first zone `(200, 166)` is empty. */
module Waterfall {
  import opened Geometry
  import opened Scene

  const DropAmount: int := 50

  /** A droplet; `lifespan` starts at 150 (the member initialiser) and is what the
      drawing maps to alpha. */
  datatype Drop = Drop(pos: Vec2, frc: Vec2, vel: Vec2, uniqueVal: real, lifespan: int,
                       drag: real, windY: real, scale: real)

  /** The draws of one droplet update: the three `ofSignedNoise` samples of lines 306-308,
      the two `ofRandom` draws of lines 311-312, the respawn height of line 316, and the
      zone's drag and second force sample (lines 342, 346-348). */
  datatype DropNoise = DropNoise(wind: real, pushY: real, pushX: real, nextDrag: real,
                                 nextUnique: real, respawnY: real, zoneDrag: real, zonePushY: real)

  /** Right edge of the band, where droplets are sent back: `waterFallAreaX + 20`. */
  const RecycleX: real := (WaterFallAreaX + 20) as real
  /** The channel walls of the band, as heights: `[waterFallAreaY, screenHeight - waterFallAreaY]`. */
  const ChannelTop: real := WaterFallAreaY as real
  const ChannelBottom: real := ScreenHeight - WaterFallAreaY as real

  /** Lines 306-312: forces, velocity and the next drag and noise seed. */
  function Push(d: Drop, n: DropNoise): (e: Drop)
    ensures e.pos == d.pos && e.lifespan == d.lifespan && e.scale == d.scale
  {
    var frc := Vec2(n.pushX * 0.09 + 0.18, n.wind * 0.01 + n.pushY * 0.3);
    d.(windY := n.wind, frc := frc, vel := Add(Scale(d.vel, d.drag), Scale(frc, 0.4)),
       drag := n.nextDrag, uniqueVal := n.nextUnique)
  }

  /** Whether a droplet with already updated velocity is recycled (line 315). */
  predicate Recycles(d: Drop) { d.pos.x + d.vel.x > RecycleX }

  /** Lines 315-319: moved `waterFallAreaX + 20` (286) left, respawned at a random channel height and
      given lifespan 100. */
  function Recycle(d: Drop, n: DropNoise): Drop {
    if Recycles(d) then d.(pos := Vec2(d.pos.x - RecycleX, n.respawnY), lifespan := 100) else d
  }

  /** Lines 325-340: inside the band the droplet is kept in the channel; between one and two
      band widths it is kept on the screen. Each hit reverses the vertical velocity. */
  function Channel(d: Drop): Drop {
    var x := d.pos.x;
    var (y1, v1) :=
      if d.pos.y > ChannelBottom && x < WaterFallAreaX as real then (ChannelBottom, -d.vel.y)
      else if d.pos.y < ChannelTop && x < WaterFallAreaX as real then (ChannelTop, -d.vel.y)
      else (d.pos.y, d.vel.y);
    var inScreenBand := x < (2 * WaterFallAreaX) as real && x > WaterFallAreaX as real;
    var (y2, v2) :=
      if y1 > ScreenHeight && inScreenBand then (ScreenHeight, -v1)
      else if y1 < 0.0 && inScreenBand then (0.0, -v1)
      else (y1, v1);
    d.(pos := Vec2(x, y2), vel := Vec2(d.vel.x, v2))
  }

  /** The first lifespan zone `(offset, waterFallAreaX - 100)`, line 341. */
  predicate InFirstZone(x: real) { x > Offset as real && x < (WaterFallAreaX - 100) as real }
  /** The second lifespan zone `(waterFallAreaX - 100, waterFallAreaX + 20)`, line 345. */
  predicate InSecondZone(x: real) { x > (WaterFallAreaX - 100) as real && x < RecycleX }

  /** Lines 341-350: ageing, with a second, stronger push in the second zone. */
  function Age(d: Drop, n: DropNoise): Drop {
    if InFirstZone(d.pos.x) then d.(drag := n.zoneDrag, lifespan := d.lifespan - 7)
    else if InSecondZone(d.pos.x) then
      var frc := d.frc.(y := d.windY * 0.04 + n.zonePushY * 0.6);
      d.(frc := frc, vel := Add(d.vel, Scale(frc, 0.45)), drag := n.zoneDrag, lifespan := d.lifespan - 8)
    else d
  }

  /** Lines 304-350: one droplet update. */
  function DropStep(d: Drop, n: DropNoise): Drop {
    var pushed := Recycle(Push(d, n), n);
    Age(Channel(pushed.(pos := Add(pushed.pos, pushed.vel))), n)
  }

  /** Line 302: every droplet, each with its own draws. */
  function DropsStep(ds: seq<Drop>, ns: seq<DropNoise>): (es: seq<Drop>)
    requires |ns| == |ds|
    ensures |es| == |ds|
  {
    seq(|ds|, i requires 0 <= i < |ds| => DropStep(ds[i], ns[i]))
  }

  /** With an 800-pixel screen the first zone is empty: its left end `offset = 200` lies
      right of its right end `waterFallAreaX - 100 = 166`. So no droplet loses 7. */
  lemma FirstZoneEmpty(x: real)
    ensures !InFirstZone(x)
  {
  }

  /** What one update does to a droplet's lifespan: it is reset to 100 exactly when the
      droplet is recycled, and then 8 is taken off exactly when it ends in the second zone. */
  lemma DropLifespan(d: Drop, n: DropNoise)
    ensures var pushed := Push(d, n); var e := DropStep(d, n);
      e.lifespan == (if Recycles(pushed) then 100 else d.lifespan) - (if InSecondZone(e.pos.x) then 8 else 0)
  {
    FirstZoneEmpty(DropStep(d, n).pos.x);
  }

  /** A droplet only ever ages or is reset to 100: its lifespan never grows beyond the
      larger of its old value and 100. */
  lemma DropLifespanBound(d: Drop, n: DropNoise)
    ensures DropStep(d, n).lifespan <= if d.lifespan > 100 then d.lifespan else 100
  {
    DropLifespan(d, n);
  }

  /** Its horizontal position is the old one plus the new velocity, less `waterFallAreaX + 20`
      (286) when recycled. The channel and the zones never move a droplet sideways. */
  lemma DropAdvances(d: Drop, n: DropNoise)
    ensures var pushed := Push(d, n);
      DropStep(d, n).pos.x == d.pos.x + pushed.vel.x - (if Recycles(pushed) then RecycleX else 0.0)
  {
  }

  /** After an update a droplet left of the band's edge lies in the channel, and one in the
      band right of it lies on the screen. */
  lemma DropInChannel(d: Drop, n: DropNoise)
    ensures var e := DropStep(d, n);
      (e.pos.x < WaterFallAreaX as real ==> ChannelTop <= e.pos.y <= ChannelBottom) &&
      (WaterFallAreaX as real < e.pos.x < (2 * WaterFallAreaX) as real ==> 0.0 <= e.pos.y <= ScreenHeight)
  {
  }

  /** The update never touches a droplet's scale. */
  lemma DropScaleKept(d: Drop, n: DropNoise)
    ensures DropStep(d, n).scale == d.scale
  {
  }

  /** Over the whole pool: every droplet keeps its scale, ends in the channel when it is
      left of the band's edge, and is recycled with lifespan 100 exactly when it passes
      `waterFallAreaX + 20`. */
  lemma DropsStepPool(ds: seq<Drop>, ns: seq<DropNoise>)
    requires |ns| == |ds|
    ensures var es := DropsStep(ds, ns);
      forall i :: 0 <= i < |ds| ==>
        es[i].scale == ds[i].scale &&
        (es[i].pos.x < WaterFallAreaX as real ==> ChannelTop <= es[i].pos.y <= ChannelBottom) &&
        es[i].lifespan == (if Recycles(Push(ds[i], ns[i])) then 100 else ds[i].lifespan) -
                          (if InSecondZone(es[i].pos.x) then 8 else 0)
  {
    var es := DropsStep(ds, ns);
    forall i | 0 <= i < |ds|
      ensures es[i].scale == ds[i].scale &&
        (es[i].pos.x < WaterFallAreaX as real ==> ChannelTop <= es[i].pos.y <= ChannelBottom) &&
        es[i].lifespan == (if Recycles(Push(ds[i], ns[i])) then 100 else ds[i].lifespan) -
                          (if InSecondZone(es[i].pos.x) then 8 else 0)
    {
      DropScaleKept(ds[i], ns[i]);
      DropInChannel(ds[i], ns[i]);
      DropLifespan(ds[i], ns[i]);
    }
  }

  /** `setupWaterfall`, lines 108-114, for one droplet: `new Drop()` value-initialises, so
      the horizontal velocity `fabs(0) * 3` is 0, the drag is 0 and the lifespan is 150. */
  function NewDrop(pos: Vec2, velY: real, scale: real): (d: Drop)
    ensures d.vel == Vec2(0.0, velY) && d.drag == 0.0 && d.lifespan == 150 && d.frc == Zero
  {
    Drop(pos, Zero, Vec2(0.0 * 3.0, velY), 0.0, 150, 0.0, 0.0, scale)
  }

  /** Because the drag starts at 0, a new droplet's first update discards its initial
      vertical velocity: only the forces of that update move it. */
  lemma FirstUpdateForgetsVelocity(pos: Vec2, velY: real, scale: real, n: DropNoise)
    ensures Push(NewDrop(pos, velY, scale), n).vel ==
      Scale(Vec2(n.pushX * 0.09 + 0.18, n.wind * 0.01 + n.pushY * 0.3), 0.4)
  {
  }
}

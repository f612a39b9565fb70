/** The island rings: the attractor the atoms react to, a point drifting with noise inside
    an inset box on the field side of the screen, and the phase its rings turn by. */
module Attractor {
  import opened Geometry
  import opened Scene

  /** `myMouse`, `vel`, `frc`, `drag` and `ringPhase` of the scene. */
  datatype Rings = Rings(mouse: Vec2, vel: Vec2, frc: Vec2, drag: real, ringPhase: real)

  /** The margin the attractor keeps from the box edges. */
  const Margin: real := 36.0
  const BoxLeft: real := WaterFallAreaX as real + Margin
  const BoxRight: real := ScreenWidth - Margin
  const BoxTop: real := Margin
  const BoxBottom: real := ScreenHeight - Margin

  predicate InBox(p: Vec2) { BoxLeft <= p.x <= BoxRight && BoxTop <= p.y <= BoxBottom }

  /** `setupIslandRings`, lines 139-145: centred on the field, with a random velocity. */
  function SetupRings(vel: Vec2): (s: Rings)
    ensures InBox(s.mouse) && s.ringPhase == 0.0 && s.drag == 1.0 && s.vel == vel
  {
    Rings(Vec2(FieldCentreX as real, ScreenHeight / 2.0), vel, Vec2(0.0, 0.0), 1.0, 0.0)
  }

  /** `updateIslandRings`, lines 429-453, with `noise` the two `ofSignedNoise` samples. */
  function RingsStep(s: Rings, noise: Vec2): Rings {
    var vel := Add(Scale(s.vel, s.drag), Scale(noise, 0.6));
    var m := Add(s.mouse, vel);
    var hx := Bounce(m.x, vel.x, BoxLeft, BoxRight, true);
    var hy := Bounce(m.y, vel.y, BoxTop, BoxBottom, true);
    Rings(Vec2(hx.c, hy.c), Vec2(hx.v, hy.v), noise, s.drag, s.ringPhase + 3.0)
  }

  /** Wherever it starts, the attractor ends every update inside `[302, 764] x [36, 444]`,
      the rings have turned by 3, and the drag is kept. */
  lemma RingsInBox(s: Rings, noise: Vec2)
    ensures var t := RingsStep(s, noise);
      InBox(t.mouse) && t.ringPhase == s.ringPhase + 3.0 && t.drag == s.drag && t.frc == noise
  {
  }

  /** The box the source writes, in numbers. */
  lemma BoxBounds()
    ensures BoxLeft == 302.0 && BoxRight == 764.0 && BoxTop == 36.0 && BoxBottom == 444.0
  {
  }

  /** A bounce only reflects: each velocity component keeps its size, and with the drag at
      1 (its only value) the update adds exactly the noise force to the speed before that. */
  lemma RingsSpeedKept(s: Rings, noise: Vec2)
    requires s.drag == 1.0
    ensures var t := RingsStep(s, noise); var v := Add(s.vel, Scale(noise, 0.6));
      (t.vel.x == v.x || t.vel.x == -v.x) && (t.vel.y == v.y || t.vel.y == -v.y)
  {
    assert Scale(s.vel, s.drag) == s.vel;
  }

  /** An attractor that stays clear of the edges just moves by its new velocity. */
  lemma RingsFreeMove(s: Rings, noise: Vec2)
    requires InBox(Add(s.mouse, Add(Scale(s.vel, s.drag), Scale(noise, 0.6))))
    ensures var t := RingsStep(s, noise);
      t.mouse == Add(s.mouse, t.vel) && t.vel == Add(Scale(s.vel, s.drag), Scale(noise, 0.6))
  {
  }

  /** Consecutive updates, one noise sample each. */
  function RingsRun(s: Rings, noise: seq<Vec2>): (t: Rings)
    decreases |noise|
  {
    if |noise| == 0 then s else RingsStep(RingsRun(s, noise[..|noise| - 1]), noise[|noise| - 1])
  }

  /** After `k` updates the rings have turned by `3k`, and the attractor is in the box. */
  lemma {:induction false} RingsRunPhase(s: Rings, noise: seq<Vec2>)
    ensures RingsRun(s, noise).ringPhase == s.ringPhase + 3.0 * |noise| as real
    ensures |noise| > 0 ==> InBox(RingsRun(s, noise).mouse)
    decreases |noise|
  {
    if |noise| > 0 {
      RingsRunPhase(s, noise[..|noise| - 1]);
      RingsInBox(RingsRun(s, noise[..|noise| - 1]), noise[|noise| - 1]);
    }
  }
}

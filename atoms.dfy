/** The atom minigame: five atoms that shy away from the attractor while the game is idle
    and are pulled in and caught while it is shocked. One pass over the pool also carries
    the shared round state: the shock flag, the catch counter and the end of the game. */
module Atoms {
  import opened Geometry
  import opened Scene

  const AtomAmount: int := 5
  /** `shockTotalTime`, set to 3000 ms by every reset. */
  const ShockTotalTime: int := 3000
  /** The catch count that ends the game (line 392). */
  const CatchGoal: int := 10

  /** An atom; `dead` is the `isDead` float, which the source only ever sets to 0 or 1. */
  datatype Atom = Atom(pos: Vec2, vel: Vec2, frc: Vec2, dead: bool, drag: real,
                       uniqueVal: real, scale: real, phase: real, pSpeed: real)

  /** The game fields the atom pass reads and writes: `atomState` (0 idle, 1 shocked),
      `caughtCount`, `endGame` and `shockSavedTime` (ms). */
  datatype Round = Round(atomState: int, caught: int, endGame: bool, shockSaved: int)

  /** The per-atom inputs of one pass: `dist` stands for `frc.length()` of the vector from
      the atom to the attractor, `noise` for the two `ofSignedNoise` samples of lines 373-374. */
  datatype AtomInput = AtomInput(dist: real, noise: Vec2)

  datatype Stepped = Stepped(atom: Atom, round: Round)

  /** `ofVec2f::normalize` given the vector's length: unchanged when the length is 0. */
  function Normalize(v: Vec2, len: real): Vec2 {
    if len > 0.0 then Scale(v, 1.0 / len) else v
  }

  /** Lines 358-376: the idle branch. Close to the attractor the atom is pushed away along
      the unit vector; further out it drifts with the noise. */
  function Idle(a: Atom, mouse: Vec2, inp: AtomInput): Atom {
    var unit := Normalize(Sub(mouse, a.pos), inp.dist);
    var vel := Scale(a.vel, a.drag);
    if inp.dist < 150.0 then a.(frc := unit, vel := Add(vel, Scale(Scale(unit, -1.0), 0.8)))
    else a.(frc := inp.noise, vel := Add(vel, Scale(inp.noise, 0.1)))
  }

  /** Lines 379-391: the shocked branch. The velocity is reset and the atom is pulled in;
      within 100 it is caught, parked at `screenWidth * 100` and counted. */
  function Pull(a: Atom, mouse: Vec2, inp: AtomInput, r: Round): Stepped {
    var toMouse := Sub(mouse, a.pos);
    if inp.dist < 200.0 && inp.dist > 100.0 then
      Stepped(a.(vel := Add(Zero, Scale(toMouse, 0.05)), frc := toMouse), r)
    else if inp.dist < 100.0 then
      Stepped(a.(vel := Add(Zero, Scale(toMouse, 0.8)), frc := toMouse,
                 pos := a.pos.(x := ScreenWidth * 100.0), dead := true),
              r.(caught := r.caught + 1))
    else Stepped(a.(vel := Zero, frc := toMouse), r)
  }

  /** Lines 392-401: the goal test and the shock timeout, run after every shocked atom. */
  function ShockEnd(r: Round, now: int): Round {
    var r1 := if r.caught == CatchGoal then r.(endGame := true) else r;
    if now - r1.shockSaved > ShockTotalTime then r1.(atomState := 0, shockSaved := now) else r1
  }

  /** Lines 406-425: integrate, then keep a live atom inside the screen less its margin
      `20 * scale` (and right of the waterfall band); a dead atom is not held back. */
  function Move(a: Atom): Atom {
    var p := Add(a.pos, a.vel);
    var edge := a.scale * 20.0;
    var hx := Bounce(p.x, a.vel.x, WaterFallAreaX as real, ScreenWidth - edge, !a.dead);
    var hy := Bounce(p.y, a.vel.y, edge, ScreenHeight - edge, !a.dead);
    a.(pos := Vec2(hx.c, hy.c), vel := Vec2(hx.v, hy.v))
  }

  /** Lines 356-425: one atom of the pass, under the round state left by the atoms before it. */
  function AtomStep(a: Atom, r: Round, mouse: Vec2, inp: AtomInput, now: int): Stepped {
    var a1 := a.(phase := a.phase + a.pSpeed);
    var s :=
      if r.atomState == 0 then Stepped(Idle(a1, mouse, inp), r)
      else if r.atomState == 1 then
        var p := Pull(a1, mouse, inp, r);
        Stepped(p.atom, ShockEnd(p.round, now))
      else Stepped(a1, r);
    Stepped(Move(s.atom), s.round)
  }

  /** Whether the atom is caught by this step: shocked and closer than 100. */
  predicate Caught(r: Round, inp: AtomInput) { r.atomState == 1 && inp.dist < 100.0 }

  datatype Pass = Pass(atoms: seq<Atom>, round: Round)

  /** Line 355: the first `n` atoms of the pass, in pool order; the rest are untouched. */
  function AtomsPass(atoms: seq<Atom>, r: Round, mouse: Vec2, ins: seq<AtomInput>, now: int, n: nat): (p: Pass)
    requires n <= |atoms| == |ins|
    ensures |p.atoms| == |atoms|
    decreases n
  {
    if n == 0 then Pass(atoms, r)
    else
      var before := AtomsPass(atoms, r, mouse, ins, now, n - 1);
      var s := AtomStep(atoms[n - 1], before.round, mouse, ins[n - 1], now);
      Pass(before.atoms[n - 1 := s.atom], s.round)
  }

  /** A pass of `n` atoms has changed exactly those `n`, each by its own step. */
  lemma {:induction false} AtomsPassUntouched(atoms: seq<Atom>, r: Round, mouse: Vec2, ins: seq<AtomInput>, now: int, n: nat, k: int)
    requires n <= |atoms| == |ins| && n <= k < |atoms|
    ensures AtomsPass(atoms, r, mouse, ins, now, n).atoms[k] == atoms[k]
    decreases n
  {
    if n > 0 {
      AtomsPassUntouched(atoms, r, mouse, ins, now, n - 1, k);
    }
  }

  /** A catch adds exactly one to the counter, marks the atom dead and parks it at
      `screenWidth * 100` before it moves by its pull velocity; nothing else changes
      the counter. */
  lemma AtomCapture(a: Atom, r: Round, mouse: Vec2, inp: AtomInput, now: int)
    ensures var s := AtomStep(a, r, mouse, inp, now);
      s.round.caught == r.caught + (if Caught(r, inp) then 1 else 0) &&
      s.atom.dead == (a.dead || Caught(r, inp)) &&
      (Caught(r, inp) ==> s.atom.vel == Scale(Sub(mouse, a.pos), 0.8) &&
                          s.atom.pos.x == ScreenWidth * 100.0 + s.atom.vel.x)
  {
    if Caught(r, inp) {
      var p := Pull(a.(phase := a.phase + a.pSpeed), mouse, inp, r);
      assert Add(Zero, Scale(Sub(mouse, a.pos), 0.8)) == Scale(Sub(mouse, a.pos), 0.8);
      assert p.atom.dead;
    }
  }

  /** The capture test is a distance test: with `dist` the true length, an atom is caught
      exactly when the shock is on and its squared distance to the attractor is below 100². */
  lemma CaptureByDistance(a: Atom, r: Round, mouse: Vec2, inp: AtomInput)
    requires IsLength(inp.dist, Sub(mouse, a.pos))
    ensures Caught(r, inp) <==> r.atomState == 1 && DistSq(mouse, a.pos) < 10000.0
  {
    LengthBelow(inp.dist, Sub(mouse, a.pos), 100.0);
  }

  /** The game ends on the step that brings the counter to exactly 10, under the shock. */
  lemma AtomEndGame(a: Atom, r: Round, mouse: Vec2, inp: AtomInput, now: int)
    ensures var s := AtomStep(a, r, mouse, inp, now);
      s.round.endGame == (r.endGame || (r.atomState == 1 && s.round.caught == CatchGoal))
  {
    AtomCapture(a, r, mouse, inp, now);
  }

  /** The shock times out, and its clock restarts at `now`, on the first shocked atom seen
      more than 3000 ms after the last restart; idle passes leave both alone. */
  lemma AtomShockTimeout(a: Atom, r: Round, mouse: Vec2, inp: AtomInput, now: int)
    ensures var s := AtomStep(a, r, mouse, inp, now);
      if r.atomState == 1 && now - r.shockSaved > ShockTotalTime
      then s.round.atomState == 0 && s.round.shockSaved == now
      else s.round.atomState == r.atomState && s.round.shockSaved == r.shockSaved
  {
  }

  /** A live atom ends every step inside its margin box, right of the waterfall band;
      this needs the margin `20 * scale` to fit, which `setupAtoms`'s scale in `[0.5, 1]`
      guarantees. */
  lemma AtomStaysOnScreen(a: Atom, r: Round, mouse: Vec2, inp: AtomInput, now: int)
    requires 0.0 <= a.scale <= 1.0
    ensures var s := AtomStep(a, r, mouse, inp, now);
      !s.atom.dead ==>
        WaterFallAreaX as real <= s.atom.pos.x <= ScreenWidth - 20.0 * a.scale &&
        20.0 * a.scale <= s.atom.pos.y <= ScreenHeight - 20.0 * a.scale
  {
    AtomCapture(a, r, mouse, inp, now);
  }

  /** A dead atom that is not caught again only moves by its new velocity. */
  lemma DeadAtomDrifts(a: Atom, r: Round, mouse: Vec2, inp: AtomInput, now: int)
    requires a.dead && !Caught(r, inp)
    ensures var s := AtomStep(a, r, mouse, inp, now);
      s.atom.dead && s.atom.pos == Add(a.pos, s.atom.vel)
  {
  }

  /** The step keeps an atom's scale, drag, speed and seed. */
  lemma AtomKeepsShape(a: Atom, r: Round, mouse: Vec2, inp: AtomInput, now: int)
    ensures var s := AtomStep(a, r, mouse, inp, now);
      s.atom.scale == a.scale && s.atom.drag == a.drag && s.atom.pSpeed == a.pSpeed &&
      s.atom.uniqueVal == a.uniqueVal && s.atom.phase == a.phase + a.pSpeed
  {
  }

  /** Over a pass the counter rises by at most one per atom and never falls. */
  lemma {:induction false} PassCaughtBounds(atoms: seq<Atom>, r: Round, mouse: Vec2, ins: seq<AtomInput>, now: int, n: nat)
    requires n <= |atoms| == |ins|
    ensures r.caught <= AtomsPass(atoms, r, mouse, ins, now, n).round.caught <= r.caught + n
    decreases n
  {
    if n > 0 {
      PassCaughtBounds(atoms, r, mouse, ins, now, n - 1);
      var before := AtomsPass(atoms, r, mouse, ins, now, n - 1);
      AtomCapture(atoms[n - 1], before.round, mouse, ins[n - 1], now);
    }
  }

  /** Once the game has ended it stays ended for the rest of the pass. */
  lemma {:induction false} PassEndGameSticky(atoms: seq<Atom>, r: Round, mouse: Vec2, ins: seq<AtomInput>, now: int, n: nat)
    requires n <= |atoms| == |ins| && r.endGame
    ensures AtomsPass(atoms, r, mouse, ins, now, n).round.endGame
    decreases n
  {
    if n > 0 {
      PassEndGameSticky(atoms, r, mouse, ins, now, n - 1);
    }
  }

  /** The goal is never skipped: a pass that takes the counter from below 10 to at least
      10 ends the game, because every catch is followed by the goal test. */
  lemma {:induction false} PassReachesGoal(atoms: seq<Atom>, r: Round, mouse: Vec2, ins: seq<AtomInput>, now: int, n: nat)
    requires 0 < n <= |atoms| == |ins|
    requires r.caught < CatchGoal <= AtomsPass(atoms, r, mouse, ins, now, n).round.caught
    ensures AtomsPass(atoms, r, mouse, ins, now, n).round.endGame
    decreases n
  {
    var before := AtomsPass(atoms, r, mouse, ins, now, n - 1);
    AtomCapture(atoms[n - 1], before.round, mouse, ins[n - 1], now);
    AtomEndGame(atoms[n - 1], before.round, mouse, ins[n - 1], now);
    if before.round.caught >= CatchGoal {
      PassReachesGoal(atoms, r, mouse, ins, now, n - 1);
    }
  }

  /** Once the shock has timed out in a pass, every later atom of that pass takes the idle
      branch: the state stays 0. */
  lemma {:induction false} PassStaysIdle(atoms: seq<Atom>, r: Round, mouse: Vec2, ins: seq<AtomInput>, now: int, n: nat, m: nat)
    requires n <= m <= |atoms| == |ins|
    requires AtomsPass(atoms, r, mouse, ins, now, n).round.atomState == 0
    ensures AtomsPass(atoms, r, mouse, ins, now, m).round.atomState == 0
    decreases m
  {
    if m > n {
      PassStaysIdle(atoms, r, mouse, ins, now, n, m - 1);
    }
  }

  /** The shock is not re-armed when it is switched on (line 173 leaves `shockSavedTime`
      alone): a shock switched on more than 3000 ms after the last restart acts on the
      first atom only, and every other atom of that pass is idle. */
  lemma StaleShockEndsAtFirstAtom(atoms: seq<Atom>, r: Round, mouse: Vec2, ins: seq<AtomInput>, now: int, m: nat)
    requires 1 <= m <= |atoms| == |ins|
    requires r.atomState == 1 && now - r.shockSaved > ShockTotalTime
    ensures AtomsPass(atoms, r, mouse, ins, now, 1).round.atomState == 0
    ensures AtomsPass(atoms, r, mouse, ins, now, m).round.atomState == 0
  {
    AtomShockTimeout(atoms[0], r, mouse, ins[0], now);
    PassStaysIdle(atoms, r, mouse, ins, now, 1, m);
  }

  /** Atom `k` of a pass is stepped under the round state left by the atoms before it. */
  lemma {:induction false} PassStepAt(atoms: seq<Atom>, r: Round, mouse: Vec2, ins: seq<AtomInput>, now: int, n: nat, k: int)
    requires n <= |atoms| == |ins| && 0 <= k < n
    ensures AtomsPass(atoms, r, mouse, ins, now, n).atoms[k] ==
      AtomStep(atoms[k], AtomsPass(atoms, r, mouse, ins, now, k).round, mouse, ins[k], now).atom
    decreases n
  {
    if k != n - 1 {
      PassStepAt(atoms, r, mouse, ins, now, n - 1, k);
    }
  }

  /** After a whole pass every live atom is inside its margin box, and every atom keeps its
      scale, so the box is the same on the next pass. */
  lemma PassLiveOnScreen(atoms: seq<Atom>, r: Round, mouse: Vec2, ins: seq<AtomInput>, now: int, k: int)
    requires |atoms| == |ins| && 0 <= k < |atoms| && 0.0 <= atoms[k].scale <= 1.0
    ensures var a := AtomsPass(atoms, r, mouse, ins, now, |atoms|).atoms[k];
      a.scale == atoms[k].scale &&
      (!a.dead ==> WaterFallAreaX as real <= a.pos.x <= ScreenWidth - 20.0 * a.scale &&
                   20.0 * a.scale <= a.pos.y <= ScreenHeight - 20.0 * a.scale)
  {
    PassStepAt(atoms, r, mouse, ins, now, |atoms|, k);
    var before := AtomsPass(atoms, r, mouse, ins, now, k).round;
    AtomStaysOnScreen(atoms[k], before, mouse, ins[k], now);
    AtomKeepsShape(atoms[k], before, mouse, ins[k], now);
  }

  /** A pass only ends the game once the counter has reached the goal. */
  lemma {:induction false} PassEndGameCause(atoms: seq<Atom>, r: Round, mouse: Vec2, ins: seq<AtomInput>, now: int, n: nat)
    requires n <= |atoms| == |ins| && !r.endGame
    ensures var p := AtomsPass(atoms, r, mouse, ins, now, n);
      p.round.endGame ==> p.round.caught >= CatchGoal
    decreases n
  {
    if n > 0 {
      PassEndGameCause(atoms, r, mouse, ins, now, n - 1);
      var before := AtomsPass(atoms, r, mouse, ins, now, n - 1);
      AtomCapture(atoms[n - 1], before.round, mouse, ins[n - 1], now);
      AtomEndGame(atoms[n - 1], before.round, mouse, ins[n - 1], now);
    }
  }
}

/** The scene object itself: one frame's `update` runs the field, the waterfall and, while
    the game is on, the atoms, the attractor and the game-length timeout, then reads the
    button; `draw` advances the two colour timers. The rules of a frame are stated on
    values first (`Play`, `Button`, `Tick`, `Timers`) and the class is proved to follow
    them. */
module Controller {
  import opened Geometry
  import opened Scene
  import opened SpatialGrid
  import opened GenField
  import opened Waterfall
  import opened Atoms
  import opened Attractor
  import opened PhaseTimer

  /** `gameTotalTime`, set to `60000 * 3` ms by every reset. */
  const GameTotalTime: int := 180000

  /** What `getval_gpio` reads from pin 17: `"1"`, `"0"` or anything else. */
  datatype Signal = High | Low | Other

  /** The scalar game fields: `caughtCount`, `buttonHits`, `endGame`, `atomState`,
      `atomRed`, `isleRed` and the four saved times (ms). */
  datatype Control = Control(caught: int, buttonHits: int, endGame: bool, atomState: int,
                             atomRed: bool, isleRed: bool, gameSaved: int, shockSaved: int,
                             atomStart: int, isleStart: int)

  /** Everything a frame's game logic reads and writes. */
  datatype GameState = GameState(atoms: seq<Atom>, rings: Rings, ctl: Control)

  /** The `ofRandom` draws of one `gameReset`: the attractor's velocity (lines 142-143) and
      each atom's position and velocity (lines 57-61). */
  datatype ResetDraws = ResetDraws(ringVel: Vec2, atomPos: seq<Vec2>, atomVel: seq<Vec2>)

  predicate DrawsFit(d: ResetDraws, n: int) { |d.atomPos| == n && |d.atomVel| == n }

  /** The ranges those draws come from. */
  predicate DrawsInRange(d: ResetDraws) {
    -2.0 <= d.ringVel.x <= 2.0 && -2.0 <= d.ringVel.y <= 2.0 &&
    (forall i :: 0 <= i < |d.atomPos| ==>
       WaterFallAreaX as real <= d.atomPos[i].x <= ScreenWidth && 0.0 <= d.atomPos[i].y <= ScreenHeight) &&
    (forall i :: 0 <= i < |d.atomVel| ==>
       -3.9 <= d.atomVel[i].x <= 3.9 && -3.9 <= d.atomVel[i].y <= 3.9)
  }

  /** Lines 57-62 for one atom: new position and velocity, alive again. */
  function Revived(a: Atom, pos: Vec2, vel: Vec2): Atom {
    a.(pos := pos, vel := vel, dead := false)
  }

  function ReviveAll(atoms: seq<Atom>, d: ResetDraws): (rs: seq<Atom>)
    requires DrawsFit(d, |atoms|)
    ensures |rs| == |atoms|
  {
    seq(|atoms|, i requires 0 <= i < |atoms| => Revived(atoms[i], d.atomPos[i], d.atomVel[i]))
  }

  /** `gameReset`, lines 35-65: every counter and flag cleared, every clock restarted at
      `now`, the attractor re-centred, the atoms revived. */
  function Restart(atoms: seq<Atom>, now: int, d: ResetDraws): GameState
    requires DrawsFit(d, |atoms|)
  {
    GameState(ReviveAll(atoms, d), SetupRings(d.ringVel),
              Control(0, 0, false, 0, false, false, now, now, now, now))
  }

  function RoundOf(c: Control): Round { Round(c.atomState, c.caught, c.endGame, c.shockSaved) }

  function WithRound(c: Control, r: Round): Control {
    c.(atomState := r.atomState, caught := r.caught, endGame := r.endGame, shockSaved := r.shockSaved)
  }

  /** Line 158: the atom pass over the whole pool, under the attractor's position. */
  function AtomsPlayed(g: GameState, now: int, ins: seq<AtomInput>): (h: GameState)
    requires |ins| == |g.atoms|
    ensures |h.atoms| == |g.atoms| && h.rings == g.rings
  {
    var p := AtomsPass(g.atoms, RoundOf(g.ctl), g.rings.mouse, ins, now, |g.atoms|);
    GameState(p.atoms, g.rings, WithRound(g.ctl, p.round))
  }

  /** Lines 155-160 while the game is on: the atom pass, then the attractor. */
  function Played(g: GameState, now: int, ins: seq<AtomInput>, ringNoise: Vec2): (h: GameState)
    requires |ins| == |g.atoms|
    ensures |h.atoms| == |g.atoms|
  {
    var a := AtomsPlayed(g, now, ins);
    a.(rings := RingsStep(a.rings, ringNoise))
  }

  /** Lines 162-165: the timeout test, on the time read at the start of the frame. */
  predicate TimedOut(g: GameState, h: GameState, now: int) {
    h.ctl.caught > 1 && now - g.ctl.gameSaved > GameTotalTime
  }

  /** Lines 150 and 155-167. */
  function Play(g: GameState, now: int, ins: seq<AtomInput>, ringNoise: Vec2, d: ResetDraws): GameState
    requires |ins| == |g.atoms| && DrawsFit(d, |g.atoms|)
  {
    if g.ctl.endGame then g
    else
      var h := Played(g, now, ins, ringNoise);
      if TimedOut(g, h, now) then Restart(h.atoms, now, d) else h
  }

  /** Lines 169-179: a `"1"` counts a hit and switches the shock on while both timers are
      red and the hit is one of the first five in a row, or else replays an ended game;
      a `"0"` clears the count. */
  function Button(g: GameState, sig: Signal, now: int, d: ResetDraws): GameState
    requires DrawsFit(d, |g.atoms|)
  {
    match sig
    case High =>
      var c := g.ctl.(buttonHits := g.ctl.buttonHits + 1);
      if c.atomRed && c.isleRed && 1 <= c.buttonHits <= 5 then g.(ctl := c.(atomState := 1))
      else if c.endGame then Restart(g.atoms, now, d)
      else g.(ctl := c)
    case Low => g.(ctl := g.ctl.(buttonHits := 0))
    case Other => g
  }

  /** One `update` of the game logic, all on the one clock reading `now`. */
  function Tick(g: GameState, now: int, ins: seq<AtomInput>, ringNoise: Vec2, d: ResetDraws, sig: Signal): GameState
    requires |ins| == |g.atoms| && DrawsFit(d, |g.atoms|)
  {
    var h := Play(g, now, ins, ringNoise, d);
    Button(h, sig, now, d)
  }

  /** The timer side of `draw`, lines 467 and 473-474: the atom timer always runs, the ring
      timer only while the game is on. `t` are the atom windows drawn this frame. */
  function Timers(c: Control, now: int, t: Thresholds): Control {
    var atom := TimerStep(Timer(c.atomRed, c.atomStart), t, now);
    var c1 := c.(atomRed := atom.red, atomStart := atom.start);
    if c.endGame then c1
    else
      var isle := TimerStep(Timer(c.isleRed, c.isleStart), RingThresholds, now);
      c1.(isleRed := isle.red, isleStart := isle.start)
  }

  // ---------------------------------------------------------------------------------
  // Properties of a frame

  /** A reset starts a fresh game: nothing caught, no hits, idle, both flags clear, every
      clock at `now`, every atom alive and otherwise unchanged, the attractor centred in
      its box with its rings at phase 0. With draws from their ranges every atom starts
      on the field side of the screen. */
  lemma RestartStartsGame(atoms: seq<Atom>, now: int, d: ResetDraws)
    requires DrawsFit(d, |atoms|)
    ensures var g := Restart(atoms, now, d);
      g.ctl.caught == 0 && g.ctl.buttonHits == 0 && !g.ctl.endGame && g.ctl.atomState == 0 &&
      !g.ctl.atomRed && !g.ctl.isleRed &&
      g.ctl.gameSaved == now && g.ctl.shockSaved == now && g.ctl.atomStart == now && g.ctl.isleStart == now &&
      InBox(g.rings.mouse) && g.rings.ringPhase == 0.0 && |g.atoms| == |atoms| &&
      (forall i :: 0 <= i < |atoms| ==>
         !g.atoms[i].dead && g.atoms[i].scale == atoms[i].scale && g.atoms[i].drag == atoms[i].drag &&
         g.atoms[i].pSpeed == atoms[i].pSpeed && g.atoms[i].phase == atoms[i].phase &&
         (DrawsInRange(d) ==>
            WaterFallAreaX as real <= g.atoms[i].pos.x <= ScreenWidth && 0.0 <= g.atoms[i].pos.y <= ScreenHeight))
  {
  }

  /** An ended game is frozen: the atoms, the attractor and the whole game state stay put
      until the button is read. */
  lemma EndedGameFrozen(g: GameState, now: int, ins: seq<AtomInput>, ringNoise: Vec2, d: ResetDraws)
    requires |ins| == |g.atoms| && DrawsFit(d, |g.atoms|) && g.ctl.endGame
    ensures Play(g, now, ins, ringNoise, d) == g
  {
  }

  /** Without a timeout the catch counter of a frame rises by at most one per atom and
      never falls; with one it is back at 0. */
  lemma PlayCaught(g: GameState, now: int, ins: seq<AtomInput>, ringNoise: Vec2, d: ResetDraws)
    requires |ins| == |g.atoms| && DrawsFit(d, |g.atoms|)
    ensures var h := Play(g, now, ins, ringNoise, d);
      if !g.ctl.endGame && TimedOut(g, Played(g, now, ins, ringNoise), now)
      then h.ctl.caught == 0 && h.ctl.gameSaved == now
      else g.ctl.caught <= h.ctl.caught <= g.ctl.caught + |g.atoms| && h.ctl.gameSaved == g.ctl.gameSaved
  {
    PassCaughtBounds(g.atoms, RoundOf(g.ctl), g.rings.mouse, ins, now, |g.atoms|);
  }

  /** A game that has caught at most one atom is never timed out, however long it runs. */
  lemma OneCatchNeverTimesOut(g: GameState, now: int, ins: seq<AtomInput>, ringNoise: Vec2)
    requires |ins| == |g.atoms| && Played(g, now, ins, ringNoise).ctl.caught <= 1
    ensures !TimedOut(g, Played(g, now, ins, ringNoise), now)
  {
  }

  /** A frame ends the game only by bringing the counter to the goal, and a frame that
      brings it there from below does end the game (unless the timeout resets it). */
  lemma PlayEndsGame(g: GameState, now: int, ins: seq<AtomInput>, ringNoise: Vec2, d: ResetDraws)
    requires |ins| == |g.atoms| && DrawsFit(d, |g.atoms|) && !g.ctl.endGame
    ensures var h := Play(g, now, ins, ringNoise, d);
      (h.ctl.endGame ==> h.ctl.caught >= CatchGoal) &&
      (0 < |g.atoms| && g.ctl.caught < CatchGoal <= Played(g, now, ins, ringNoise).ctl.caught ==>
         Played(g, now, ins, ringNoise).ctl.endGame)
  {
    var r := RoundOf(g.ctl);
    PassEndGameCause(g.atoms, r, g.rings.mouse, ins, now, |g.atoms|);
    if 0 < |g.atoms| && g.ctl.caught < CatchGoal <= Played(g, now, ins, ringNoise).ctl.caught {
      PassReachesGoal(g.atoms, r, g.rings.mouse, ins, now, |g.atoms|);
    }
  }

  /** The shock is switched on by the button exactly when the pin reads `"1"`, both timers
      are red and this is one of the first five hits in a row. */
  lemma ButtonShock(g: GameState, sig: Signal, now: int, d: ResetDraws)
    requires DrawsFit(d, |g.atoms|) && g.ctl.atomState != 1
    ensures Button(g, sig, now, d).ctl.atomState == 1 <==>
      sig == High && g.ctl.atomRed && g.ctl.isleRed && 0 <= g.ctl.buttonHits <= 4
  {
  }

  /** A shock switched on by the button changes nothing but the hit count and the state,
      and in particular does not restart the shock clock. */
  lemma ShockKeepsClock(g: GameState, sig: Signal, now: int, d: ResetDraws)
    requires DrawsFit(d, |g.atoms|) && sig == High && g.ctl.atomRed && g.ctl.isleRed && 0 <= g.ctl.buttonHits <= 4
    ensures var h := Button(g, sig, now, d);
      h.atoms == g.atoms && h.rings == g.rings && h.ctl.shockSaved == g.ctl.shockSaved &&
      h.ctl.caught == g.ctl.caught && h.ctl.endGame == g.ctl.endGame && h.ctl.buttonHits == g.ctl.buttonHits + 1
  {
  }

  /** An ended game is replayed by a `"1"` unless that `"1"` switches the shock on: with both
      flags red (the ring flag is frozen once the game ends) the first five hits in a row
      only shock, and the sixth replays. */
  lemma ReplayButton(g: GameState, now: int, d: ResetDraws)
    requires DrawsFit(d, |g.atoms|) && g.ctl.endGame
    ensures Button(g, High, now, d) == Restart(g.atoms, now, d) <==>
      !(g.ctl.atomRed && g.ctl.isleRed && 0 <= g.ctl.buttonHits <= 4)
  {
    if g.ctl.atomRed && g.ctl.isleRed && 0 <= g.ctl.buttonHits <= 4 {
      assert Button(g, High, now, d).ctl.endGame;
    }
  }

  /** On a running game a `"1"` that does not switch the shock on only counts the hit: the
      button never resets a game that has not ended. */
  lemma RunningButton(g: GameState, now: int, d: ResetDraws)
    requires DrawsFit(d, |g.atoms|) && !g.ctl.endGame
    requires !(g.ctl.atomRed && g.ctl.isleRed && 0 <= g.ctl.buttonHits <= 4)
    ensures Button(g, High, now, d) == g.(ctl := g.ctl.(buttonHits := g.ctl.buttonHits + 1))
  {
  }

  /** Over one frame the catch counter falls only through a reset: if it ends lower than it
      started, the frame ends with every game field as `gameReset` leaves it, up to the hit
      count, and the attractor re-centred. */
  lemma {:induction false} TickCaughtFallsOnlyByReset(g: GameState, now: int, ins: seq<AtomInput>, ringNoise: Vec2,
                                    d: ResetDraws, sig: Signal)
    requires |ins| == |g.atoms| && DrawsFit(d, |g.atoms|)
    ensures var h := Tick(g, now, ins, ringNoise, d, sig);
      h.ctl.caught < g.ctl.caught ==>
        h.ctl.(buttonHits := 0) == Restart(g.atoms, now, d).ctl && h.rings == SetupRings(d.ringVel)
  {
    var p := Play(g, now, ins, ringNoise, d);
    PlayCaught(g, now, ins, ringNoise, d);
    if !g.ctl.endGame && TimedOut(g, Played(g, now, ins, ringNoise), now) {
      assert p == Restart(Played(g, now, ins, ringNoise).atoms, now, d);
      AtMostOneReset(Played(g, now, ins, ringNoise).atoms, sig, now, d, d);
    }
  }

  /** Any read other than `"1"` leaves the game alone except for the hit count: `"0"`
      clears it, anything else keeps it. */
  lemma QuietButton(g: GameState, sig: Signal, now: int, d: ResetDraws)
    requires DrawsFit(d, |g.atoms|) && sig != High
    ensures var h := Button(g, sig, now, d);
      h.atoms == g.atoms && h.rings == g.rings && h.ctl.(buttonHits := g.ctl.buttonHits) == g.ctl &&
      h.ctl.buttonHits == (if sig == Low then 0 else g.ctl.buttonHits)
  {
  }

  /** A frame resets the game at most once: after a timeout reset the button cannot reset
      again (the game is on and both flags are clear), so one set of reset draws per frame
      is enough. */
  lemma AtMostOneReset(atoms: seq<Atom>, sig: Signal, now: int, d: ResetDraws, d2: ResetDraws)
    requires DrawsFit(d, |atoms|) && DrawsFit(d2, |atoms|)
    ensures var g := Restart(atoms, now, d); var h := Button(g, sig, now, d2);
      h.atoms == g.atoms && h.rings == g.rings && h.ctl.atomState == 0 && !h.ctl.endGame
  {
  }

  /** While the game is ended the ring timer is frozen; the atom timer runs on. */
  lemma RingTimerFrozen(c: Control, now: int, t: Thresholds)
    requires c.endGame
    ensures var e := Timers(c, now, t);
      e.isleRed == c.isleRed && e.isleStart == c.isleStart &&
      Timer(e.atomRed, e.atomStart) == TimerStep(Timer(c.atomRed, c.atomStart), t, now)
  {
  }

  /** So an ended game whose ring flag was red stays that way, and with the atom timer in
      its fourth window a `"1"` shocks instead of replaying. */
  lemma EndedRedGameShocks(c: Control, now: int, t: Thresholds, atoms: seq<Atom>, rings: Rings, d: ResetDraws)
    requires c.endGame && c.isleRed && c.buttonHits == 0 && AtomThresholds(t)
    requires t.t3 <= now - c.atomStart < t.t4 && DrawsFit(d, |atoms|)
    ensures var e := Timers(c, now, t); var h := Button(GameState(atoms, rings, e), High, now, d);
      e.isleRed && e.atomRed && h.ctl.endGame && h.ctl.atomState == 1
  {
    ThresholdsOrdered(t);
    TimerEffects(Timer(c.atomRed, c.atomStart), t, now);
  }

  // ---------------------------------------------------------------------------------
  // The scene object

  /** `setupAtoms`' draws for one atom, lines 123-130. */
  datatype AtomDraw = AtomDraw(uniqueVal: real, drag: real, scale: real, pSpeed: real)

  /** A new atom before the first reset; `isDead` is not set until then. */
  function NewAtom(a: AtomDraw): (t: Atom)
    ensures t.scale == a.scale && t.phase == 0.0 && t.frc == Zero
  {
    Atom(Zero, Zero, Zero, false, a.drag, a.uniqueVal, a.scale, 0.0, a.pSpeed)
  }

  /** The draws of `setupWaterfall` for one droplet, lines 109-112. */
  datatype DropDraw = DropDraw(pos: Vec2, velY: real, scale: real)

  /** Milliseconds to the seconds of `ofGetElapsedTimef`. */
  function Seconds(ms: int): real { ms as real / 1000.0 }

  class WaterfallGame {
    const field: Field
    const drops: array<Drop>
    const atoms: array<Atom>
    var caughtCount: int
    var buttonHits: int
    var endGame: bool
    var atomState: int
    var atomRed: bool
    var isleRed: bool
    var gameSavedTime: int
    var shockSavedTime: int
    var atomStartTime: int
    var isleStartTime: int
    var ringPhase: real
    var myMouse: Vec2
    var vel: Vec2
    var frc: Vec2
    var drag: real

    /** The pools have their fixed sizes, the field is consistent, and every atom's scale
        is the `[0.5, 1]` of `setupAtoms`. */
    predicate Valid()
      reads this, field, field.particles, atoms
    {
      field.Valid() && drops.Length == DropAmount && atoms.Length == AtomAmount && ScalesFit()
    }

    /** Every atom's scale is the `[0.5, 1]` of `setupAtoms`. */
    predicate ScalesFit()
      reads atoms
    {
      forall i :: 0 <= i < atoms.Length ==> 0.5 <= atoms[i].scale <= 1.0
    }

    /** One input per atom, whose `dist` is the length of the vector from the atom to the
        attractor (lines 364 and 384). Each atom is stepped once, from its position at the
        start of the pass, and the pass does not move the attractor. */
    predicate DistancesFit(ins: seq<AtomInput>)
      reads this`myMouse, atoms
    {
      |ins| == atoms.Length && forall i :: 0 <= i < |ins| ==> IsLength(ins[i].dist, Sub(myMouse, atoms[i].pos))
    }

    function Ctl(): Control
      reads this`caughtCount, this`buttonHits, this`endGame, this`atomState, this`atomRed,
            this`isleRed, this`gameSavedTime, this`shockSavedTime, this`atomStartTime, this`isleStartTime
    {
      Control(caughtCount, buttonHits, endGame, atomState, atomRed, isleRed,
              gameSavedTime, shockSavedTime, atomStartTime, isleStartTime)
    }

    function RingsNow(): Rings
      reads this`ringPhase, this`myMouse, this`vel, this`frc, this`drag
    {
      Rings(myMouse, vel, frc, drag, ringPhase)
    }

    function State(): GameState
      reads this, atoms
    {
      GameState(atoms[..], RingsNow(), Ctl())
    }

    /** `setup`, lines 7-31: the field, the droplets and the atoms, then a reset. */
    constructor (now: int, spawn: seq<Vec2>, velocities: seq<Vec2>, dropDraws: seq<DropDraw>,
                 atomDraws: seq<AtomDraw>, d: ResetDraws)
      requires |spawn| == ParticleAmount && |velocities| == ParticleAmount
      requires forall i :: 0 <= i < |spawn| ==>
        WaterFallAreaX as real <= spawn[i].x < ScreenWidth && 0.0 <= spawn[i].y < ScreenHeight
      requires forall i :: 0 <= i < |velocities| ==> LengthSq(velocities[i]) == 400.0
      requires |dropDraws| == DropAmount && |atomDraws| == AtomAmount && DrawsFit(d, AtomAmount)
      requires forall i :: 0 <= i < |atomDraws| ==> 0.5 <= atomDraws[i].scale <= 1.0
      ensures Valid() && fresh(field) && fresh(field.particles) && fresh(field.grid)
      ensures fresh(drops) && fresh(atoms)
      ensures field.lastUpdateTime == Seconds(now)
      ensures field.particles[..] == seq(ParticleAmount, i requires 0 <= i < ParticleAmount =>
                                           Particle(spawn[i], velocities[i], i, 0, 0))
      ensures forall y, x :: 0 <= y < ResY && 0 <= x < ResX ==> field.grid[y, x] == []
      ensures field.lineVertices == [] && field.lineIndices == []
      ensures drops[..] == seq(DropAmount, i requires 0 <= i < DropAmount =>
                                 NewDrop(dropDraws[i].pos, dropDraws[i].velY, dropDraws[i].scale))
      ensures State() == Restart(seq(AtomAmount, i requires 0 <= i < AtomAmount => NewAtom(atomDraws[i])), now, d)
    {
      field := new Field(spawn, velocities, Seconds(now));
      drops := new Drop[DropAmount](i requires 0 <= i < DropAmount =>
                                     NewDrop(dropDraws[i].pos, dropDraws[i].velY, dropDraws[i].scale));
      atoms := new Atom[AtomAmount](i requires 0 <= i < AtomAmount => NewAtom(atomDraws[i]));
      new;
      GameReset(now, d);
    }

    /** `gameReset`, lines 35-65. */
    method GameReset(now: int, d: ResetDraws)
      requires ScalesFit() && DrawsFit(d, atoms.Length)
      modifies this, atoms
      ensures ScalesFit()
      ensures atoms[..] == ReviveAll(old(atoms[..]), d)
      ensures RingsNow() == SetupRings(d.ringVel)
      ensures Ctl() == Control(0, 0, false, 0, false, false, now, now, now, now)
      ensures State() == Restart(old(atoms[..]), now, d)
    {
      ResetControl(now);
      ResetRings(d.ringVel);
      ReviveAtoms(d);
    }

    /** Lines 40-51: the colours off, every clock at `now`, no catches, no presses. */
    method ResetControl(now: int)
      modifies this`caughtCount, this`buttonHits, this`endGame, this`atomState, this`atomRed,
               this`isleRed, this`gameSavedTime, this`shockSavedTime, this`atomStartTime, this`isleStartTime
      ensures Ctl() == Control(0, 0, false, 0, false, false, now, now, now, now)
    {
      atomRed, isleRed, atomState := false, false, 0;
      atomStartTime, shockSavedTime, isleStartTime, gameSavedTime := now, now, now, now;
      caughtCount, buttonHits, endGame := 0, 0, false;
    }

    /** `setupIslandRings`, lines 138-146, called at line 53. */
    method ResetRings(v: Vec2)
      modifies this`ringPhase, this`myMouse, this`vel, this`frc, this`drag
      ensures RingsNow() == SetupRings(v)
    {
      var r := SetupRings(v);
      ringPhase, myMouse, vel, frc, drag := r.ringPhase, r.mouse, r.vel, r.frc, r.drag;
    }

    /** Lines 54-64: a new position and velocity for every atom, each alive again. */
    method ReviveAtoms(d: ResetDraws)
      requires DrawsFit(d, atoms.Length)
      modifies atoms
      ensures atoms[..] == ReviveAll(old(atoms[..]), d)
    {
      for i := 0 to atoms.Length
        invariant forall k :: 0 <= k < i ==> atoms[k] == Revived(old(atoms[k]), d.atomPos[k], d.atomVel[k])
        invariant forall k :: i <= k < atoms.Length ==> atoms[k] == old(atoms[k])
      {
        atoms[i] := Revived(atoms[i], d.atomPos[i], d.atomVel[i]);
      }
    }

    /** `updateWaterfall`, lines 300-351, one set of draws per droplet. */
    method UpdateWaterfall(noise: seq<DropNoise>)
      requires |noise| == drops.Length
      modifies drops
      ensures drops[..] == DropsStep(old(drops[..]), noise)
    {
      for i := 0 to drops.Length
        invariant forall k :: 0 <= k < i ==> drops[k] == DropStep(old(drops[k]), noise[k])
        invariant forall k :: i <= k < drops.Length ==> drops[k] == old(drops[k])
      {
        drops[i] := DropStep(drops[i], noise[i]);
      }
    }

    /** `updateAtoms`, lines 353-427: the pass carries the round state in the fields. */
    method UpdateAtoms(now: int, ins: seq<AtomInput>)
      requires ScalesFit() && DistancesFit(ins)
      modifies this`caughtCount, this`endGame, this`atomState, this`shockSavedTime, atoms
      ensures ScalesFit() && State() == AtomsPlayed(old(State()), now, ins)
    {
      ghost var start := atoms[..];
      ghost var c0 := Ctl();
      ghost var r0 := RoundOf(c0);
      for i := 0 to atoms.Length
        invariant var p := AtomsPass(start, r0, myMouse, ins, now, i);
          atoms[..] == p.atoms && Ctl() == WithRound(c0, p.round)
      {
        AtomsPassUntouched(start, r0, myMouse, ins, now, i, i);
        StepAtom(i, now, ins[i]);
      }
      forall k | 0 <= k < atoms.Length
        ensures 0.5 <= atoms[k].scale <= 1.0
      {
        PassLiveOnScreen(start, r0, myMouse, ins, now, k);
      }
    }

    /** Lines 356-425: one atom of the pass. */
    method StepAtom(i: int, now: int, inp: AtomInput)
      requires 0 <= i < atoms.Length
      modifies this`caughtCount, this`endGame, this`atomState, this`shockSavedTime, atoms
      ensures var s := AtomStep(old(atoms[i]), old(RoundOf(Ctl())), myMouse, inp, now);
        atoms[..] == old(atoms[..])[i := s.atom] && Ctl() == WithRound(old(Ctl()), s.round)
    {
      var s := AtomStep(atoms[i], Round(atomState, caughtCount, endGame, shockSavedTime), myMouse, inp, now);
      atoms[i] := s.atom;
      atomState, caughtCount, endGame, shockSavedTime := s.round.atomState, s.round.caught, s.round.endGame, s.round.shockSaved;
    }

    /** `updateIslandRings`, lines 428-454. */
    method UpdateIslandRings(noise: Vec2)
      modifies this`ringPhase, this`myMouse, this`vel, this`frc
      ensures RingsNow() == RingsStep(old(RingsNow()), noise) && Ctl() == old(Ctl())
    {
      var r := RingsStep(RingsNow(), noise);
      ringPhase, myMouse, vel, frc := r.ringPhase, r.mouse, r.vel, r.frc;
    }

    /** Lines 150 and 155-167: the game part of `update`. */
    method UpdateGame(now: int, ins: seq<AtomInput>, ringNoise: Vec2, d: ResetDraws)
      requires ScalesFit() && DistancesFit(ins) && DrawsFit(d, atoms.Length)
      modifies this, atoms
      ensures ScalesFit() && State() == Play(old(State()), now, ins, ringNoise, d)
    {
      ghost var g0 := State();
      var gamePassedTime := now - gameSavedTime;
      if !endGame {
        UpdateAtoms(now, ins);
        ghost var a := State();
        assert a == AtomsPlayed(g0, now, ins);
        UpdateIslandRings(ringNoise);
        assert State() == GameState(a.atoms, RingsStep(a.rings, ringNoise), a.ctl);
        if caughtCount > 1 && gamePassedTime > GameTotalTime {
          gameSavedTime := now;
          GameReset(now, d);
        }
      }
    }

    /** Lines 168-179: the button part of `update`. */
    method ReadButton(sig: Signal, now: int, d: ResetDraws)
      requires ScalesFit() && DrawsFit(d, atoms.Length)
      modifies this, atoms
      ensures ScalesFit() && State() == Button(old(State()), sig, now, d)
    {
      if sig == High {
        buttonHits := buttonHits + 1;
        if atomRed && isleRed && buttonHits >= 1 && buttonHits <= 5 {
          atomState := 1;
        } else if endGame {
          GameReset(now, d);
        }
      } else if sig == Low {
        buttonHits := 0;
      }
    }

    /** The game and button part of `update`, lines 150 and 155-179. */
    method Step(now: int, ins: seq<AtomInput>, ringNoise: Vec2, d: ResetDraws, sig: Signal)
      requires ScalesFit() && DistancesFit(ins) && DrawsFit(d, atoms.Length)
      modifies this, atoms
      ensures ScalesFit() && State() == Tick(old(State()), now, ins, ringNoise, d, sig)
    {
      UpdateGame(now, ins, ringNoise, d);
      ReadButton(sig, now, d);
    }

    /** `update`, lines 149-183, with `now` the one clock reading of the frame. */
    method Update(now: int, ins: seq<AtomInput>, ringNoise: Vec2, dropNoise: seq<DropNoise>,
                  d: ResetDraws, sig: Signal)
      requires Valid() && DistancesFit(ins) && |dropNoise| == drops.Length && DrawsFit(d, atoms.Length)
      modifies this, atoms, drops, field, field.particles, field.grid
      ensures Valid() && field.Partitioned() && field.MeshBuilt()
      ensures field.currTime == Seconds(now)
      ensures field.lastUpdateTime == Seconds(now) && field.timeDelta == Seconds(now) - old(field.lastUpdateTime)
      ensures field.particles[..] == IndexAll(AdvanceAll(old(field.particles[..]), field.timeDelta))
      ensures drops[..] == DropsStep(old(drops[..]), dropNoise)
      ensures State() == Tick(old(State()), now, ins, ringNoise, d, sig)
    {
      field.Update(Seconds(now));
      UpdateWaterfall(dropNoise);
      Step(now, ins, ringNoise, d, sig);
    }

    /** The timer side of `draw`, lines 457-490, with `t` this frame's atom windows. */
    method DrawTimers(now: int, t: Thresholds)
      modifies this`atomRed, this`atomStartTime, this`isleRed, this`isleStartTime
      ensures Ctl() == Timers(old(Ctl()), now, t)
    {
      var elapsed := now - atomStartTime;
      if elapsed < t.t1 {
        atomRed := false;
      } else if elapsed < t.t2 {
      } else if elapsed < t.t3 {
      } else if elapsed < t.t4 {
        atomRed := true;
      } else if elapsed < t.t5 {
        atomStartTime := now;
      }
      if !endGame {
        var isleElapsed := now - isleStartTime;
        if isleElapsed < 1500 {
          isleRed := false;
        } else if isleElapsed < 2500 {
        } else if isleElapsed < 3500 {
        } else if isleElapsed < 6500 {
          isleRed := true;
        } else if isleElapsed < 7500 {
          isleStartTime := now;
        }
      }
    }
  }
}

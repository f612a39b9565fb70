/** The colour-phase timers of the atoms and the island rings: five time windows measured
    from a start time. The colours they pick are drawing; what is state is the red flag
    (the shock may only be switched on while both timers are red) and the restart. */
module PhaseTimer {

  /** The five window ends, in ms after the start. */
  datatype Thresholds = Thresholds(t1: int, t2: int, t3: int, t4: int, t5: int)

  /** Which branch of the `if` chain an elapsed time selects; `Past` is none of them. */
  datatype Window = First | Second | Third | Fourth | Fifth | Past

  /** A timer's state: its red flag (`atomRed` / `isleRed`) and its start time. */
  datatype Timer = Timer(red: bool, start: int)

  /** The ring timer's fixed windows, lines 566-581. */
  const RingThresholds: Thresholds := Thresholds(1500, 2500, 3500, 6500, 7500)

  /** The atom timer's windows are drawn anew on every frame, lines 529-533: `int`
      conversions of `ofRandom` draws, so each lies in its closed range. */
  predicate AtomThresholds(t: Thresholds) {
    500 <= t.t1 <= 1000 && 1500 <= t.t2 <= 2000 && 2500 <= t.t3 <= 3000 &&
    4000 <= t.t4 <= 4500 && 5000 <= t.t5 <= 6000
  }

  predicate Ordered(t: Thresholds) { 0 < t.t1 < t.t2 < t.t3 < t.t4 < t.t5 }

  function WindowOf(elapsed: int, t: Thresholds): Window {
    if elapsed < t.t1 then First
    else if elapsed < t.t2 then Second
    else if elapsed < t.t3 then Third
    else if elapsed < t.t4 then Fourth
    else if elapsed < t.t5 then Fifth
    else Past
  }

  /** Lines 535-553 and 566-584 without the colours: the first window clears the flag,
      the fourth sets it, the fifth restarts the timer. */
  function TimerStep(tm: Timer, t: Thresholds, now: int): Timer {
    match WindowOf(now - tm.start, t)
    case First => tm.(red := false)
    case Fourth => tm.(red := true)
    case Fifth => tm.(start := now)
    case _ => tm
  }

  /** Both tables are ordered, so the windows are consecutive intervals. */
  lemma ThresholdsOrdered(t: Thresholds)
    requires AtomThresholds(t)
    ensures Ordered(t) && Ordered(RingThresholds)
  {
  }

  /** For ordered windows the chain selects the interval `elapsed` lies in: a window is
      chosen exactly when `elapsed` is at least the previous end and below its own. */
  lemma WindowIntervals(elapsed: int, t: Thresholds)
    requires Ordered(t)
    ensures WindowOf(elapsed, t) == First <==> elapsed < t.t1
    ensures WindowOf(elapsed, t) == Fourth <==> t.t3 <= elapsed < t.t4
    ensures WindowOf(elapsed, t) == Fifth <==> t.t4 <= elapsed < t.t5
    ensures WindowOf(elapsed, t) == Past <==> t.t5 <= elapsed
  {
  }

  /** Windows only move forward as time passes (for fixed ordered windows). */
  lemma WindowMonotone(e1: int, e2: int, t: Thresholds)
    requires Ordered(t) && e1 <= e2
    ensures WindowRank(WindowOf(e1, t)) <= WindowRank(WindowOf(e2, t))
  {
  }

  function WindowRank(w: Window): (k: int)
    ensures 1 <= k <= 6
  {
    match w
    case First => 1
    case Second => 2
    case Third => 3
    case Fourth => 4
    case Fifth => 5
    case Past => 6
  }

  /** The flag changes only in windows one and four, and the start only in window five. */
  lemma TimerEffects(tm: Timer, t: Thresholds, now: int)
    requires Ordered(t)
    ensures var u := TimerStep(tm, t, now); var e := now - tm.start;
      (u.red != tm.red ==> e < t.t1 || t.t3 <= e < t.t4) &&
      (u.start != tm.start ==> t.t4 <= e < t.t5 && u.start == now) &&
      (e < t.t1 ==> !u.red) && (t.t3 <= e < t.t4 ==> u.red)
  {
  }

  /** A timer whose elapsed time has reached the fifth end is stuck: no later frame changes
      it, since its start never moves again. */
  lemma TimerStuck(tm: Timer, t: Thresholds, now: int, later: int)
    requires Ordered(t) && now - tm.start >= t.t5 && later >= now
    ensures TimerStep(tm, t, now) == tm && TimerStep(tm, t, later) == tm
  {
  }

  /** For the atom timer `t5` is redrawn each frame, so it is stuck once 6000 ms have
      passed, whatever the draws. */
  lemma AtomTimerStuck(tm: Timer, t: Thresholds, now: int)
    requires AtomThresholds(t) && now - tm.start >= 6000
    ensures TimerStep(tm, t, now) == tm
  {
  }

  /** A restart is followed, on the next frame less than `t1` later, by a cleared flag. */
  lemma RestartClears(tm: Timer, t: Thresholds, now: int, next: int)
    requires Ordered(t) && t.t4 <= now - tm.start < t.t5 && now <= next < now + t.t1
    ensures TimerStep(TimerStep(tm, t, now), t, next) == Timer(false, now)
  {
  }

  /** The atom and ring windows differ, so the two flags need not be red together: at
      4700 ms into both cycles the atom timer is past its fourth window while the ring
      timer is still in it. */
  lemma FlagsOutOfStep(t: Thresholds)
    requires AtomThresholds(t)
    ensures WindowOf(4700, t) != Fourth && WindowOf(4700, RingThresholds) == Fourth
  {
  }
}

/**
 * Animation-state derivation of an actor (tutorial.py `update_sprite`):
 * which sprite sheet is shown, and which frame of it.
 */
module Animation {
  import Arith

  /** The way an actor faces; the source spells it "left" / "right". */
  datatype Direction = Left | Right

  /** The animation sheets an actor owns, one per animation state. */
  datatype SheetKind = Idle | HitSheet | Jump | DoubleJump | Fall | Run

  function DirectionName(d: Direction): string {
    match d
    case Left => "left"
    case Right => "right"
  }

  function KindName(k: SheetKind): string {
    match k
    case Idle => "idle"
    case HitSheet => "hit"
    case Jump => "jump"
    case DoubleJump => "double_jump"
    case Fall => "fall"
    case Run => "run"
  }

  /** The key of a sheet in the actor's sprite dictionary, e.g. "run_left". */
  function SheetName(k: SheetKind, d: Direction): string {
    KindName(k) + "_" + DirectionName(d)
  }

  /** Vertical speed beyond which a falling actor shows the "fall" sheet (GRAVITY * 2). */
  const FallThreshold: real := 2.0

  /**
   * Sheet selection of `Player.update_sprite`: a strict priority of hit, then
   * rising (single or double jump), then falling fast, then running, else idle.
   * Each ensures gives the exact condition under which one sheet is chosen.
   */
  function SelectSheet(hit: bool, yVel: real, xVel: real, jumpCount: nat): (k: SheetKind)
    ensures k == HitSheet <==> hit
    ensures k == Jump <==> !hit && yVel < 0.0 && jumpCount == 1
    ensures k == DoubleJump <==> !hit && yVel < 0.0 && jumpCount == 2
    ensures k == Fall <==> !hit && yVel > FallThreshold
    ensures k == Run <==> !hit && 0.0 <= yVel <= FallThreshold && xVel != 0.0
    ensures k == Idle <==> !hit && ((yVel < 0.0 && jumpCount != 1 && jumpCount != 2) ||
                                    (0.0 <= yVel <= FallThreshold && xVel == 0.0))
  {
    if hit then HitSheet
    else if yVel < 0.0 then
      (if jumpCount == 1 then Jump else if jumpCount == 2 then DoubleJump else Idle)
    else if yVel > FallThreshold then Fall
    else if xVel != 0.0 then Run
    else Idle
  }

  /**
   * Sheet selection of `Player_2.update_sprite` as written: its "fall" branch
   * compares instead of assigning, so the sheet stays "idle" there, and the
   * branch still shadows the "run" test below it.
   */
  function SelectSheetAsWritten(hit: bool, yVel: real, xVel: real, jumpCount: nat): SheetKind {
    if hit then HitSheet
    else if yVel < 0.0 then
      (if jumpCount == 1 then Jump else if jumpCount == 2 then DoubleJump else Idle)
    else if yVel > FallThreshold then Idle
    else if xVel != 0.0 then Run
    else Idle
  }

  /** The selection an actor uses: `fallBug` picks the second player's code as written. */
  function SheetFor(fallBug: bool, hit: bool, yVel: real, xVel: real, jumpCount: nat): SheetKind {
    if fallBug then SelectSheetAsWritten(hit, yVel, xVel, jumpCount)
    else SelectSheet(hit, yVel, xVel, jumpCount)
  }

  /** The as-written selection never shows "fall", and shows "idle" exactly where "fall" was meant. */
  lemma AsWrittenNeverFalls(hit: bool, yVel: real, xVel: real, jumpCount: nat)
    ensures SelectSheetAsWritten(hit, yVel, xVel, jumpCount) != Fall
    ensures !hit && yVel > FallThreshold ==> SelectSheetAsWritten(hit, yVel, xVel, jumpCount) == Idle
    ensures SelectSheetAsWritten(hit, yVel, xVel, jumpCount) != SelectSheet(hit, yVel, xVel, jumpCount)
            <==> !hit && yVel > FallThreshold
  {
  }

  /** A concrete input on which the two players disagree: a fast fall. */
  lemma AsWrittenCounterexample()
    ensures SelectSheet(false, 3.0, 0.0, 0) == Fall
    ensures SelectSheetAsWritten(false, 3.0, 0.0, 0) == Idle
  {
  }

  /**
   * The frame shown: `(animation_count // ANIMATION_DELAY) % len(sprites)`,
   * always a valid index into the sheet.
   */
  function FrameIndex(count: nat, delay: nat, frames: nat): (i: nat)
    requires delay > 0 && frames > 0
    ensures i < frames
  {
    (count / delay) % frames
  }

  /** Each frame is held for `delay` consecutive ticks: ticks `k*delay .. k*delay+delay-1` show frame `k % frames`. */
  lemma FrameHeld(k: nat, j: nat, delay: nat, frames: nat)
    requires delay > 0 && frames > 0 && j < delay
    ensures FrameIndex(k * delay + j, delay, frames) == k % frames
  {
    Arith.DivModUnique(k * delay + j, delay, k, j);
  }

  /** The animation cycles: after `delay * frames` ticks the same frame is shown again. */
  lemma FramePeriodic(count: nat, delay: nat, frames: nat)
    requires delay > 0 && frames > 0
    ensures FrameIndex(count + delay * frames, delay, frames) == FrameIndex(count, delay, frames)
  {
    var q, r := count / delay, count % delay;
    Arith.DivModUnique(count + delay * frames, delay, q + frames, r);
    Arith.DivModUnique(q + frames, frames, q / frames + 1, q % frames);
  }

  /** From one tick to the next the shown frame either stays or moves to the next one, wrapping round. */
  lemma FrameAdvance(count: nat, delay: nat, frames: nat)
    requires delay > 0 && frames > 0
    ensures FrameIndex(count + 1, delay, frames) == FrameIndex(count, delay, frames) ||
            FrameIndex(count + 1, delay, frames) == (FrameIndex(count, delay, frames) + 1) % frames
  {
    QuotientStep(count, delay);
    ModStep(count / delay, frames);
  }

  lemma QuotientStep(n: nat, d: nat)
    requires d > 0
    ensures (n + 1) / d == n / d || (n + 1) / d == n / d + 1
  {
    var q, r := n / d, n % d;
    if r + 1 < d {
      Arith.DivModUnique(n + 1, d, q, r + 1);
    } else {
      Arith.DivModUnique(n + 1, d, q + 1, 0);
    }
  }

  lemma ModStep(q: nat, m: nat)
    requires m > 0
    ensures (q + 1) % m == (q % m + 1) % m
  {
    var a, b := q / m, q % m;
    if b + 1 < m {
      Arith.DivModUnique(q + 1, m, a, b + 1);
      Arith.DivModUnique(b + 1, m, 0, b + 1);
    } else {
      Arith.DivModUnique(q + 1, m, a + 1, 0);
      Arith.DivModUnique(b + 1, m, 1, 0);
    }
  }
}

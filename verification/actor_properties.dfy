/**
 * What the actor's methods promise, stated over the `After*` functions:
 * the effect of each input, the gravity ramp over many frames, and the
 * length of the hit window.
 */
module ActorProperties {
  import opened Geometry
  import opened Animation
  import opened Actor

  /** `jump` sets the velocity, restarts the animation, counts the jump, and resets the ramp only on the first jump. */
  lemma JumpEffect(s: ActorState)
    ensures var r := AfterJump(s);
      && r.yVel == -8.0 && r.animationCount == 0 && r.jumpCount == s.jumpCount + 1
      && r.fallCount == (if r.jumpCount == 1 then 0 else s.fallCount)
      && r.(yVel := s.yVel, animationCount := s.animationCount,
            jumpCount := s.jumpCount, fallCount := s.fallCount) == s
  {
  }

  /**
   * `move_left` sets the velocity and direction and changes nothing else;
   * the animation restarts exactly when the direction changes, so repeating
   * the same input changes nothing further.
   */
  lemma MoveLeftEffect(s: ActorState, vel: real)
    ensures var r := AfterMoveLeft(s, vel);
      && r.xVel == -vel && r.direction == Left
      && r.animationCount == (if s.direction == Left then s.animationCount else 0)
      && r.(xVel := s.xVel, direction := s.direction, animationCount := s.animationCount) == s
      && AfterMoveLeft(r, vel) == r
  {
  }

  /** `move_right`, mirrored. */
  lemma MoveRightEffect(s: ActorState, vel: real)
    ensures var r := AfterMoveRight(s, vel);
      && r.xVel == vel && r.direction == Right
      && r.animationCount == (if s.direction == Right then s.animationCount else 0)
      && r.(xVel := s.xVel, direction := s.direction, animationCount := s.animationCount) == s
      && AfterMoveRight(r, vel) == r
  {
  }

  /** Every actor method keeps the actor consistent. */
  lemma TransitionsKeepConsistent(s: ActorState, cfg: Config, fps: nat, dx: real, dy: real, vel: real)
    requires WellFormed(cfg) && fps > 0 && Consistent(s, cfg)
    ensures Consistent(AfterJump(s), cfg) && Consistent(AfterMove(s, dx, dy), cfg)
    ensures Consistent(AfterMakeHit(s), cfg) && Consistent(AfterLanded(s), cfg)
    ensures Consistent(AfterHitHead(s), cfg)
    ensures Consistent(AfterMoveLeft(s, vel), cfg) && Consistent(AfterMoveRight(s, vel), cfg)
    ensures Consistent(AfterLoop(s, cfg, fps), cfg) && AfterLoop(s, cfg, fps).hasSprite
  {
  }

  /**
   * One `loop`: the vertical velocity grows by the gravity step, a value in
   * [0, 1]; the box moves by the horizontal velocity and the NEW vertical
   * velocity; one more airborne frame; the animation counter advances; the
   * horizontal velocity, the direction and the jump count are kept.
   */
  lemma LoopEffect(s: ActorState, cfg: Config, fps: nat)
    requires WellFormed(cfg) && fps > 0
    ensures var r := AfterLoop(s, cfg, fps);
      && r.yVel - s.yVel == GravityStep(s.fallCount, fps)
      && 0.0 <= r.yVel - s.yVel <= 1.0
      && r.rect.x == s.rect.x + s.xVel && r.rect.y == s.rect.y + r.yVel
      && r.rect.w == cfg.frameW && r.rect.h == cfg.frameH
      && r.fallCount == s.fallCount + 1 && r.animationCount == s.animationCount + 1
      && r.xVel == s.xVel && r.direction == s.direction && r.jumpCount == s.jumpCount
      && r.sheet == SheetName(SheetFor(cfg.fallBug, r.hit, r.yVel, r.xVel, r.jumpCount), r.direction)
      && r.frame == FrameIndex(s.animationCount, cfg.delay, cfg.sheets[r.sheet])
  {
  }

  /** `n` consecutive loops with no other input. */
  function Loops(s: ActorState, cfg: Config, fps: nat, n: nat): ActorState
    requires WellFormed(cfg) && fps > 0
    decreases n
  {
    if n == 0 then s else AfterLoop(Loops(s, cfg, fps, n - 1), cfg, fps)
  }

  /** The sum of the gravity steps for airborne frames `f .. f + n - 1`. */
  function Gain(f: nat, n: nat, fps: nat): real
    requires fps > 0
    decreases n
  {
    if n == 0 then 0.0 else Gain(f, n - 1, fps) + GravityStep(f + n - 1, fps)
  }

  /**
   * Over `n` uninterrupted loops the vertical velocity grows by the sum of
   * the gravity steps of the frames passed, the airborne counter by `n`, and
   * the horizontal motion and jump count stay as they were.
   */
  lemma {:induction false} LoopsVelocity(s: ActorState, cfg: Config, fps: nat, n: nat)
    requires WellFormed(cfg) && fps > 0
    ensures var r := Loops(s, cfg, fps, n);
      && r.yVel == s.yVel + Gain(s.fallCount, n, fps)
      && r.fallCount == s.fallCount + n
      && r.xVel == s.xVel && r.jumpCount == s.jumpCount && r.direction == s.direction
    decreases n
  {
    if n > 0 {
      LoopsVelocity(s, cfg, fps, n - 1);
      LoopEffect(Loops(s, cfg, fps, n - 1), cfg, fps);
    }
  }

  /** `0 + 1 + ... + (n - 1)`: the airborne counts of the first `n` frames of a fall. */
  function Triangle(n: nat): nat
    decreases n
  {
    if n == 0 then 0 else Triangle(n - 1) + (n - 1)
  }

  /** The triangle number in closed form. */
  lemma {:induction false} TriangleClosed(n: nat)
    ensures 2.0 * Triangle(n) as real == n as real * (n as real - 1.0)
    decreases n
  {
    if n > 0 {
      TriangleClosed(n - 1);
      var m := (n - 1) as real;
      assert m * (m - 1.0) + 2.0 * m == (m + 1.0) * m;
    }
  }

  /**
   * Along the ramp each frame's step is its airborne count over `fps`, so
   * after `n <= fps + 1` frames from rest `fps` times the gain is the sum of
   * the counts `0 .. n - 1`.
   */
  lemma {:induction false} RampGain(n: nat, fps: nat)
    requires fps > 0 && n <= fps + 1
    ensures Gain(0, n, fps) * (fps as real) == Triangle(n) as real
    decreases n
  {
    if n > 0 {
      RampGain(n - 1, fps);
      StepOnRamp(n - 1, fps);
      Distribute(Gain(0, n, fps), Gain(0, n - 1, fps), GravityStep(n - 1, fps), fps as real);
    }
  }

  /** At the end of the ramp, after `fps` frames from rest, the gain is `(fps - 1) / 2`. */
  lemma RampEnd(fps: nat)
    requires fps > 0
    ensures Gain(0, fps, fps) == (fps as real - 1.0) / 2.0
  {
    RampGain(fps, fps);
    TriangleClosed(fps);
    var f := fps as real;
    Solve(Gain(0, fps, fps), f, Triangle(fps) as real, f * (f - 1.0));
    Cancel(f, f - 1.0);
  }

  /** Past the ramp the velocity grows by exactly 1 per frame, without a cap: after `fps + k` frames from rest the gain is `(fps - 1) / 2 + k`. */
  lemma {:induction false} TerminalGain(k: nat, fps: nat)
    requires fps > 0
    ensures Gain(0, fps + k, fps) == (fps as real - 1.0) / 2.0 + k as real
    decreases k
  {
    if k == 0 {
      RampEnd(fps);
    } else {
      TerminalGain(k - 1, fps);
      assert GravityStep(fps + k - 1, fps) == 1.0;
    }
  }

  lemma Distribute(total: real, a: real, b: real, f: real)
    requires total == a + b
    ensures total * f == a * f + b * f
  {
  }

  lemma Solve(g: real, f: real, t: real, m: real)
    requires f > 0.0 && g * f == t && 2.0 * t == m
    ensures g == m / (2.0 * f)
  {
    assert (2.0 * f) * g == m;
  }

  lemma Cancel(f: real, x: real)
    requires f > 0.0
    ensures f * x / (2.0 * f) == x / 2.0
  {
  }

  /**
   * The velocity gained in `n` frames of falling from rest, in closed form:
   * `n(n-1) / (2 fps)` along the ramp, then one more unit per frame with no cap.
   */
  function RampSum(n: nat, fps: nat): real
    requires fps > 0
  {
    if n <= fps then (n as real) * (n as real - 1.0) / (2.0 * fps as real)
    else (fps as real - 1.0) / 2.0 + (n - fps) as real
  }

  /** The frame-by-frame sum of gravity steps from rest equals the closed form. */
  lemma FallGain(n: nat, fps: nat)
    requires fps > 0
    ensures Gain(0, n, fps) == RampSum(n, fps)
  {
    if n <= fps {
      RampGain(n, fps);
      TriangleClosed(n);
      Solve(Gain(0, n, fps), fps as real, Triangle(n) as real, (n as real) * (n as real - 1.0));
    } else {
      TerminalGain(n - fps, fps);
    }
  }

  /**
   * A fall from rest (airborne counter 0, as after `landed` or a first
   * jump): the vertical velocity after `n` frames, in closed form.
   */
  lemma FallFromRest(s: ActorState, cfg: Config, fps: nat, n: nat)
    requires WellFormed(cfg) && fps > 0 && s.fallCount == 0
    ensures Loops(s, cfg, fps, n).yVel == s.yVel + RampSum(n, fps)
  {
    LoopsVelocity(s, cfg, fps, n);
    FallGain(n, fps);
  }

  /**
   * The hit window: after `make_hit`, the next `2 * fps` loops keep the actor
   * hit and show the "hit" sheet, with the counter equal to the loops passed;
   * loop `2 * fps + 1` ends it.
   */
  lemma {:induction false} HitWindow(s: ActorState, cfg: Config, fps: nat, k: nat)
    requires WellFormed(cfg) && fps > 0 && k <= 2 * fps + 1
    ensures var r := Loops(AfterMakeHit(s), cfg, fps, k);
      && r.hit == (k <= 2 * fps)
      && r.hitCount == (if k <= 2 * fps then k else 0)
      && (1 <= k <= 2 * fps ==> r.sheet == SheetName(HitSheet, r.direction))
    decreases k
  {
    if k > 0 {
      HitWindow(s, cfg, fps, k - 1);
    }
  }

  /** Without a new `make_hit`, an actor that is not hit stays so. */
  lemma {:induction false} HitStaysCleared(s: ActorState, cfg: Config, fps: nat, n: nat)
    requires WellFormed(cfg) && fps > 0 && !s.hit && s.hitCount == 0
    ensures !Loops(s, cfg, fps, n).hit && Loops(s, cfg, fps, n).hitCount == 0
    decreases n
  {
    if n > 0 {
      HitStaysCleared(s, cfg, fps, n - 1);
    }
  }

  /** With a sprite shown, `update` changes nothing: the box already has the frame's size. */
  lemma UpdateKeepsShownSprite(s: ActorState, cfg: Config)
    requires Consistent(s, cfg) && s.hasSprite
    ensures AfterUpdate(s, cfg) == s
  {
  }

  /**
   * The two players as configured: after `update_sprite` the first player
   * shows the "fall" sheet exactly on a fast fall while not hit, and the
   * second player, whose selection is as written, never shows it.
   */
  lemma PlayersFallSheets(s: ActorState, sheets: map<string, nat>, frameW: real, frameH: real)
    requires WellFormed(PlayerOneConfig(sheets, frameW, frameH))
    ensures var r := AfterUpdateSprite(s, PlayerOneConfig(sheets, frameW, frameH));
      r.sheet == SheetName(Fall, s.direction) <==> !s.hit && s.yVel > FallThreshold
    ensures var r := AfterUpdateSprite(s, PlayerTwoConfig(sheets, frameW, frameH));
      r.sheet != SheetName(Fall, s.direction)
    ensures PlayerOneConfig(sheets, frameW, frameH).delay == 3 && PlayerTwoConfig(sheets, frameW, frameH).delay == 2
  {
    var k1 := SheetFor(false, s.hit, s.yVel, s.xVel, s.jumpCount);
    var k2 := SheetFor(true, s.hit, s.yVel, s.xVel, s.jumpCount);
    AsWrittenNeverFalls(s.hit, s.yVel, s.xVel, s.jumpCount);
    if k1 != Fall {
      SheetNameInjective(k1, Fall, s.direction);
    }
    SheetNameInjective(k2, Fall, s.direction);
  }

  /** Different sheets of one facing have different names. */
  lemma SheetNameInjective(k: SheetKind, k': SheetKind, d: Direction)
    requires k != k'
    ensures SheetName(k, d) != SheetName(k', d)
  {
    // the kinds' names already differ in their first letter
    assert SheetName(k, d)[0] == KindName(k)[0];
    assert SheetName(k', d)[0] == KindName(k')[0];
  }
}

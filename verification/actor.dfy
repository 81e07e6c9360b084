/**
 * The player character (tutorial.py `Player`, lines 96-203, and its near-copy
 * `Player_2`, lines 205-313), as one actor parameterised by its animation
 * delay and by whether it carries the second player's sheet-selection slip.
 *
 * `ActorState` is the actor's state as a value and the `After*` functions
 * give the state after each of its methods; the class `Player` holds the
 * same state in mutable fields and each of its methods is proved to move
 * `State()` exactly as the matching `After*` function says.
 */
module Actor {
  import opened Geometry
  import opened Animation

  /** `GRAVITY` of both player classes. */
  const Gravity: real := 1.0

  /** Vertical velocity given by a jump: `-GRAVITY * 8`. */
  const JumpVelocity: real := -Gravity * 8.0

  /**
   * Per-actor configuration: the animation delay (3 for the first player,
   * 2 for the second), the sheet-selection slip of the second player, the
   * number of frames of each sprite sheet by name ("run_left", ...), and the
   * size of a frame (every frame is cut to the same size and scaled).
   */
  datatype Config = Config(delay: nat, fallBug: bool, sheets: map<string, nat>, frameW: real, frameH: real)

  /** Every sheet an actor can select exists and has at least one frame. */
  predicate WellFormed(cfg: Config) {
    && cfg.delay > 0
    && forall k: SheetKind, d: Direction ::
         SheetName(k, d) in cfg.sheets && cfg.sheets[SheetName(k, d)] > 0
  }

  /** The first player's configuration: `ANIMATION_DELAY = 3`, sheet selection as intended. */
  function PlayerOneConfig(sheets: map<string, nat>, frameW: real, frameH: real): Config {
    Config(3, false, sheets, frameW, frameH)
  }

  /** The second player's configuration: `ANIMATION_DELAY = 2`, sheet selection as written. */
  function PlayerTwoConfig(sheets: map<string, nat>, frameW: real, frameH: real): Config {
    Config(2, true, sheets, frameW, frameH)
  }

  /**
   * The actor's state. `sheet` and `frame` name the sprite currently shown
   * (the source's `self.sprite`); `hasSprite` is false until the first
   * `update_sprite`, before which the source has no sprite at all.
   */
  datatype ActorState = ActorState(
    rect: Box,
    xVel: real,
    yVel: real,
    direction: Direction,
    animationCount: nat,
    fallCount: nat,
    jumpCount: nat,
    hit: bool,
    hitCount: nat,
    sheet: string,
    frame: nat,
    hasSprite: bool)
  {
    /** What the mask test sees of the actor now. */
    function MaskPose(): Pose {
      Geometry.Pose(rect, sheet, frame)
    }
  }

  /** A freshly constructed actor: at rest, facing left, no sprite yet. */
  function Initial(x: real, y: real, width: real, height: real): ActorState {
    ActorState(Box(x, y, width, height), 0.0, 0.0, Left, 0, 0, 0, false, 0, "", 0, false)
  }

  /**
   * The relations between fields every method keeps: the hit counter only
   * runs while hit, and once a sprite is shown the box has the frame's size
   * and the frame index lies within its sheet.
   */
  predicate Consistent(s: ActorState, cfg: Config) {
    && (!s.hit ==> s.hitCount == 0)
    && (s.hasSprite ==>
          && s.rect.w == cfg.frameW && s.rect.h == cfg.frameH
          && s.sheet in cfg.sheets && s.frame < cfg.sheets[s.sheet])
  }

  /** `jump`: upward velocity, animation restarts, one more jump; the fall ramp restarts only on the first jump. */
  function AfterJump(s: ActorState): ActorState {
    var jumps := s.jumpCount + 1;
    s.(yVel := JumpVelocity, animationCount := 0, jumpCount := jumps,
       fallCount := if jumps == 1 then 0 else s.fallCount)
  }

  /** `move`: shift the box. */
  function AfterMove(s: ActorState, dx: real, dy: real): ActorState {
    s.(rect := s.rect.(x := s.rect.x + dx, y := s.rect.y + dy))
  }

  /** `make_hit`: start the hit window. */
  function AfterMakeHit(s: ActorState): ActorState {
    s.(hit := true, hitCount := 0)
  }

  /** `move_left`: leftward velocity; the animation restarts only on a turn. */
  function AfterMoveLeft(s: ActorState, vel: real): ActorState {
    if s.direction != Left then s.(xVel := -vel, direction := Left, animationCount := 0)
    else s.(xVel := -vel)
  }

  /** `move_right`: rightward velocity; the animation restarts only on a turn. */
  function AfterMoveRight(s: ActorState, vel: real): ActorState {
    if s.direction != Right then s.(xVel := vel, direction := Right, animationCount := 0)
    else s.(xVel := vel)
  }

  /**
   * The gravity increment of one `loop`: `min(1, (fall_count / fps) * GRAVITY)`,
   * a linear ramp over the first `fps` airborne frames, then a constant 1.
   * With `GRAVITY` at 1 the ramp reaches the cap exactly when the airborne
   * count reaches `fps`; `GravityStepIsMin` shows this is the same value.
   */
  function GravityStep(fallCount: nat, fps: nat): (g: real)
    requires fps > 0
    ensures 0.0 <= g <= 1.0
    ensures fallCount >= fps ==> g == 1.0
  {
    RampScale(fallCount, fps);
    if fallCount >= fps then 1.0 else fallCount as real / fps as real
  }

  /** The increment is the capped ramp, written with `GRAVITY` as the source writes it. */
  lemma GravityStepIsMin(fallCount: nat, fps: nat)
    requires fps > 0
    ensures var ramp := (fallCount as real / fps as real) * Gravity;
      GravityStep(fallCount, fps) == if 1.0 <= ramp then 1.0 else ramp
  {
    RampScale(fallCount, fps);
  }

  /** Along the ramp `fps` increments of the same airborne count add up to that count. */
  lemma StepOnRamp(fallCount: nat, fps: nat)
    requires fps > 0 && fallCount <= fps
    ensures GravityStep(fallCount, fps) * (fps as real) == fallCount as real
  {
    RampScale(fallCount, fps);
  }

  /** `n / f` is at least 1 exactly when `n >= f`, and scales back to `n`. */
  lemma RampScale(n: nat, f: nat)
    requires f > 0
    ensures (n as real / f as real) * (f as real) == n as real
    ensures n >= f <==> n as real / f as real >= 1.0
    ensures n as real / f as real >= 0.0
  {
    var q, fr := n as real / f as real, f as real;
    assert q * fr == n as real;
    assert (q - 1.0) * fr == n as real - fr;
  }

  /**
   * The hit countdown of one `loop`: the counter runs while hit, and once it
   * exceeds `2 * fps` the hit ends and the counter resets.
   */
  function HitTick(hit: bool, hitCount: nat, fps: nat): (bool, nat) {
    var count := if hit then hitCount + 1 else hitCount;
    if count > 2 * fps then (false, 0) else (hit, count)
  }

  /** `update`: the box takes the size of the current frame, keeping its top-left corner. */
  function AfterUpdate(s: ActorState, cfg: Config): ActorState {
    s.(rect := Box(s.rect.x, s.rect.y, cfg.frameW, cfg.frameH))
  }

  /** `update_sprite`: select the sheet and the frame, advance the animation counter, then `update`. */
  function AfterUpdateSprite(s: ActorState, cfg: Config): ActorState
    requires WellFormed(cfg)
  {
    var name := SheetName(SheetFor(cfg.fallBug, s.hit, s.yVel, s.xVel, s.jumpCount), s.direction);
    var index := FrameIndex(s.animationCount, cfg.delay, cfg.sheets[name]);
    AfterUpdate(s.(sheet := name, frame := index, animationCount := s.animationCount + 1, hasSprite := true), cfg)
  }

  /** `loop`: gravity, move by the velocity, hit countdown, one more airborne frame, new sprite. */
  function AfterLoop(s: ActorState, cfg: Config, fps: nat): ActorState
    requires WellFormed(cfg) && fps > 0
  {
    var falling := s.(yVel := s.yVel + GravityStep(s.fallCount, fps));
    var moved := AfterMove(falling, falling.xVel, falling.yVel);
    var tick := HitTick(moved.hit, moved.hitCount, fps);
    AfterUpdateSprite(moved.(hit := tick.0, hitCount := tick.1, fallCount := moved.fallCount + 1), cfg)
  }

  /** `landed`: back on the ground. */
  function AfterLanded(s: ActorState): ActorState {
    s.(fallCount := 0, yVel := 0.0, jumpCount := 0)
  }

  /** `hit_head`: bounce off a ceiling by reversing the vertical velocity. */
  function AfterHitHead(s: ActorState): ActorState {
    s.(yVel := s.yVel * -1.0)
  }

  /** A player character; its fields are those of the source's player classes. */
  class Player {
    const cfg: Config
    var rect: Box
    var xVel: real
    var yVel: real
    var direction: Direction
    var animationCount: nat
    var fallCount: nat
    var jumpCount: nat
    var hit: bool
    var hitCount: nat
    var sheet: string
    var frame: nat
    var hasSprite: bool

    function State(): ActorState
      reads this
    {
      ActorState(rect, xVel, yVel, direction, animationCount, fallCount, jumpCount,
                 hit, hitCount, sheet, frame, hasSprite)
    }

    ghost predicate Valid()
      reads this
    {
      WellFormed(cfg) && Consistent(State(), cfg)
    }

    constructor (x: real, y: real, width: real, height: real, cfg: Config)
      requires WellFormed(cfg)
      ensures Valid() && this.cfg == cfg
      ensures State() == Initial(x, y, width, height)
    {
      this.cfg := cfg;
      rect := Box(x, y, width, height);
      xVel, yVel := 0.0, 0.0;
      direction := Left;
      animationCount, fallCount, jumpCount := 0, 0, 0;
      hit, hitCount := false, 0;
      sheet, frame, hasSprite := "", 0, false;
    }

    method Jump()
      requires Valid()
      modifies this
      ensures Valid() && State() == AfterJump(old(State()))
    {
      yVel := JumpVelocity;
      animationCount := 0;
      jumpCount := jumpCount + 1;
      if jumpCount == 1 {
        fallCount := 0;
      }
    }

    method Move(dx: real, dy: real)
      requires Valid()
      modifies this
      ensures Valid() && State() == AfterMove(old(State()), dx, dy)
    {
      rect := rect.(x := rect.x + dx);
      rect := rect.(y := rect.y + dy);
    }

    method MakeHit()
      requires Valid()
      modifies this
      ensures Valid() && State() == AfterMakeHit(old(State()))
    {
      hit := true;
      hitCount := 0;
    }

    method MoveLeft(vel: real)
      requires Valid()
      modifies this
      ensures Valid() && State() == AfterMoveLeft(old(State()), vel)
    {
      xVel := -vel;
      if direction != Left {
        direction := Left;
        animationCount := 0;
      }
    }

    method MoveRight(vel: real)
      requires Valid()
      modifies this
      ensures Valid() && State() == AfterMoveRight(old(State()), vel)
    {
      xVel := vel;
      if direction != Right {
        direction := Right;
        animationCount := 0;
      }
    }

    method Loop(fps: nat)
      requires Valid() && fps > 0
      modifies this
      ensures Valid() && State() == AfterLoop(old(State()), cfg, fps)
    {
      ghost var falling := State().(yVel := yVel + GravityStep(fallCount, fps));
      yVel := yVel + GravityStep(fallCount, fps);
      assert State() == falling;
      Move(xVel, yVel);
      ghost var moved := State();
      TickHit(fps);
      fallCount := fallCount + 1;
      ghost var tick := HitTick(moved.hit, moved.hitCount, fps);
      assert State() == moved.(hit := tick.0, hitCount := tick.1, fallCount := moved.fallCount + 1);
      UpdateSprite();
    }

    /** The hit countdown of `loop`. */
    method TickHit(fps: nat)
      requires Valid()
      modifies this
      ensures Valid()
      ensures var tick := HitTick(old(hit), old(hitCount), fps);
        State() == old(State()).(hit := tick.0, hitCount := tick.1)
    {
      if hit {
        hitCount := hitCount + 1;
      }
      if hitCount > fps * 2 {
        hit := false;
        hitCount := 0;
      }
    }

    method Landed()
      requires Valid()
      modifies this
      ensures Valid() && State() == AfterLanded(old(State()))
    {
      fallCount := 0;
      yVel := 0.0;
      jumpCount := 0;
    }

    method HitHead()
      requires Valid()
      modifies this
      ensures Valid() && State() == AfterHitHead(old(State()))
    {
      yVel := yVel * -1.0;
    }

    method UpdateSprite()
      requires Valid()
      modifies this
      ensures Valid() && State() == AfterUpdateSprite(old(State()), cfg)
    {
      var kind := SheetFor(cfg.fallBug, hit, yVel, xVel, jumpCount);
      var name := SheetName(kind, direction);
      var sprites := cfg.sheets[name];
      sheet := name;
      frame := FrameIndex(animationCount, cfg.delay, sprites);
      animationCount := animationCount + 1;
      hasSprite := true;
      Update();
    }

    /** `update`; with a sprite already shown it leaves the state as it is. */
    method Update()
      modifies this
      ensures State() == AfterUpdate(old(State()), cfg)
      ensures old(Valid()) && old(hasSprite) ==> State() == old(State())
    {
      rect := Box(rect.x, rect.y, cfg.frameW, cfg.frameH);
    }
  }
}

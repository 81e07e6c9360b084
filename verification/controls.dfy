/**
 * Keyboard input to horizontal velocity (tutorial.py `handle_move`,
 * lines 599-618): both players stop, probe one step's worth to each side,
 * and start moving only towards a side whose probe found nothing.
 */
module Controls {
  import opened Geometry
  import opened Animation
  import opened Actor
  import opened Collision

  /** `PLAYER_VEL`. */
  const PlayerVel: real := 5.0

  /** How far each side probe reaches: `PLAYER_VEL * 2`. */
  const ProbeReach: real := PlayerVel * 2.0

  /** The four keys `handle_move` reads: `a`/`d` for the first player, the arrows for the second. */
  datatype Keys = Keys(a: bool, d: bool, left: bool, right: bool)

  /** The side probes: is there an object `ProbeReach` to the left, to the right? */
  function BlockedLeft(s: ActorState, objects: seq<Entity>, overlaps: Overlap): bool {
    FirstOverlap(objects, ShiftedPose(s, -ProbeReach), overlaps).Some?
  }

  function BlockedRight(s: ActorState, objects: seq<Entity>, overlaps: Overlap): bool {
    FirstOverlap(objects, ShiftedPose(s, ProbeReach), overlaps).Some?
  }

  /**
   * The first player's steering once stopped: two independent tests, so
   * that with both moves free the second (rightwards) wins.
   */
  function SteerFirst(stopped: ActorState, goLeft: bool, goRight: bool): ActorState {
    var afterLeft := if goLeft then AfterMoveLeft(stopped, PlayerVel) else stopped;
    if goRight then AfterMoveRight(afterLeft, PlayerVel) else afterLeft
  }

  /**
   * The second player's steering once stopped: `if`/`elif`, so a free left
   * move takes priority and the right is considered only when it is not made.
   */
  function SteerSecond(stopped: ActorState, goLeft: bool, goRight: bool): ActorState {
    if goLeft then AfterMoveLeft(stopped, PlayerVel)
    else if goRight then AfterMoveRight(stopped, PlayerVel)
    else stopped
  }

  /** The first player's part of `handle_move`: stop, probe, then steer by `a` and `d`. */
  function MoveFirst(s: ActorState, objects: seq<Entity>, keyLeft: bool, keyRight: bool, overlaps: Overlap): ActorState {
    SteerFirst(s.(xVel := 0.0), keyLeft && !BlockedLeft(s, objects, overlaps), keyRight && !BlockedRight(s, objects, overlaps))
  }

  /** The second player's part of `handle_move`: stop, probe, then steer by the arrows. */
  function MoveSecond(s: ActorState, objects: seq<Entity>, keyLeft: bool, keyRight: bool, overlaps: Overlap): ActorState {
    SteerSecond(s.(xVel := 0.0), keyLeft && !BlockedLeft(s, objects, overlaps), keyRight && !BlockedRight(s, objects, overlaps))
  }

  /**
   * One player's part of `handle_move` before the keys are read: stop, then
   * probe both sides. The probes leave the player where it was.
   */
  method StopAndProbe(p: Player, objects: seq<Entity>, overlaps: Overlap)
    returns (collideLeft: Option<Entity>, collideRight: Option<Entity>)
    requires p.Valid() && p.hasSprite
    modifies p
    ensures p.Valid() && p.hasSprite && p.State() == old(p.State()).(xVel := 0.0)
    ensures collideLeft.Some? == BlockedLeft(old(p.State()), objects, overlaps)
    ensures collideRight.Some? == BlockedRight(old(p.State()), objects, overlaps)
  {
    ghost var start := p.State();
    p.xVel := 0.0;
    ghost var stopped := p.State();
    assert ShiftedPose(stopped, -ProbeReach) == ShiftedPose(start, -ProbeReach);
    assert ShiftedPose(stopped, ProbeReach) == ShiftedPose(start, ProbeReach);
    collideLeft := Collide(p, objects, -ProbeReach, overlaps);
    collideRight := Collide(p, objects, ProbeReach, overlaps);
  }

  /** The first player's key tests of `handle_move`, given which moves are free and wanted. */
  method SteerFirstPlayer(p: Player, goLeft: bool, goRight: bool)
    requires p.Valid()
    modifies p
    ensures p.Valid() && p.State() == SteerFirst(old(p.State()), goLeft, goRight)
  {
    if goLeft {
      p.MoveLeft(PlayerVel);
    }
    if goRight {
      p.MoveRight(PlayerVel);
    }
  }

  /** The second player's key tests of `handle_move`. */
  method SteerSecondPlayer(p: Player, goLeft: bool, goRight: bool)
    requires p.Valid()
    modifies p
    ensures p.Valid() && p.State() == SteerSecond(old(p.State()), goLeft, goRight)
  {
    if goLeft {
      p.MoveLeft(PlayerVel);
    } else if goRight {
      p.MoveRight(PlayerVel);
    }
  }

  /** `handle_move`: only the velocities, facings and animation restarts change. */
  method HandleMove(p1: Player, p2: Player, objects: seq<Entity>, keys: Keys, overlaps: Overlap)
    requires p1 != p2
    requires p1.Valid() && p1.hasSprite && p2.Valid() && p2.hasSprite
    modifies p1, p2
    ensures p1.Valid() && p2.Valid()
    ensures p1.State() == MoveFirst(old(p1.State()), objects, keys.a, keys.d, overlaps)
    ensures p2.State() == MoveSecond(old(p2.State()), objects, keys.left, keys.right, overlaps)
  {
    ghost var s1, s2 := p1.State(), p2.State();
    var collideLeft, collideRight := StopAndProbe(p1, objects, overlaps);
    var collideLeft2, collideRight2 := StopAndProbe(p2, objects, overlaps);
    assert p1.State() == s1.(xVel := 0.0) && p1.Valid();
    SteerFirstPlayer(p1, keys.a && collideLeft.None?, keys.d && collideRight.None?);
    ghost var f1 := p1.State();
    assert p2.State() == s2.(xVel := 0.0) && p2.Valid();
    SteerSecondPlayer(p2, keys.left && collideLeft2.None?, keys.right && collideRight2.None?);
    assert p1.State() == f1;
  }

  /**
   * The first player's outcome: rightwards when `d` is held and the right
   * is free, else leftwards when `a` is held and the left is free, else
   * still. The box, the vertical state and the animation sheet are
   * untouched. The animation restarts on a turn, and also whenever both
   * sides are free and both keys are held, since the actor then turns left
   * and back right within the same call.
   */
  lemma MoveFirstEffect(s: ActorState, objects: seq<Entity>, keyLeft: bool, keyRight: bool, overlaps: Overlap)
    ensures var r := MoveFirst(s, objects, keyLeft, keyRight, overlaps);
      var goRight := keyRight && !BlockedRight(s, objects, overlaps);
      var goLeft := keyLeft && !BlockedLeft(s, objects, overlaps);
      && r.xVel == (if goRight then PlayerVel else if goLeft then -PlayerVel else 0.0)
      && r.direction == (if goRight then Right else if goLeft then Left else s.direction)
      && r.animationCount ==
           (if (goLeft && goRight) || (goLeft && s.direction != Left) || (goRight && s.direction != Right)
            then 0 else s.animationCount)
      && r.(xVel := s.xVel, direction := s.direction, animationCount := s.animationCount) == s
  {
  }

  /**
   * The second player's outcome: leftwards when the left arrow is held and
   * the left is free, else rightwards when the right arrow is held and the
   * right is free, else still; nothing else but the facing and the
   * animation restart on a turn.
   */
  lemma MoveSecondEffect(s: ActorState, objects: seq<Entity>, keyLeft: bool, keyRight: bool, overlaps: Overlap)
    ensures var r := MoveSecond(s, objects, keyLeft, keyRight, overlaps);
      var goLeft := keyLeft && !BlockedLeft(s, objects, overlaps);
      var goRight := keyRight && !BlockedRight(s, objects, overlaps);
      && r.xVel == (if goLeft then -PlayerVel else if goRight then PlayerVel else 0.0)
      && r.direction == (if goLeft then Left else if goRight then Right else s.direction)
      && r.animationCount == (if r.direction == s.direction then s.animationCount else 0)
      && r.(xVel := s.xVel, direction := s.direction, animationCount := s.animationCount) == s
  {
  }

  /**
   * A probe that finds an object keeps the player from moving towards it:
   * a player whose left probe hits never gets a leftward velocity, and
   * likewise on the right.
   */
  lemma BlockedSideStaysShut(s: ActorState, objects: seq<Entity>, keys: Keys, overlaps: Overlap)
    ensures BlockedLeft(s, objects, overlaps) ==>
      MoveFirst(s, objects, keys.a, keys.d, overlaps).xVel >= 0.0 &&
      MoveSecond(s, objects, keys.left, keys.right, overlaps).xVel >= 0.0
    ensures BlockedRight(s, objects, overlaps) ==>
      MoveFirst(s, objects, keys.a, keys.d, overlaps).xVel <= 0.0 &&
      MoveSecond(s, objects, keys.left, keys.right, overlaps).xVel <= 0.0
  {
  }

  /** A probe blocks only if some object overlaps the actor shifted by the probe's reach. */
  lemma BlockedMeansOverlap(s: ActorState, objects: seq<Entity>, overlaps: Overlap)
    ensures BlockedLeft(s, objects, overlaps) <==>
      exists o :: o in objects && overlaps(ShiftedPose(s, -ProbeReach), o)
    ensures BlockedRight(s, objects, overlaps) <==>
      exists o :: o in objects && overlaps(ShiftedPose(s, ProbeReach), o)
  {
  }
}

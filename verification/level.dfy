/**
 * One frame of a level (the body of the `while run` loop of tutorial.py's
 * `level1`, lines 692-751, repeated with small differences in `level2`,
 * lines 822-881, and `level3`, lines 948-1007).
 *
 * `RoundState` is the frame loop's local state as a value and the functions
 * below give its change by each part of the frame; the class `Round` holds
 * the same state in mutable fields and its `Step` is proved to move
 * `State()` exactly as `Frame` says.
 */
module Level {
  import opened Geometry
  import opened Actor
  import opened Lists
  import opened Collision
  import opened Controls
  import opened Screen

  /** `FPS`: the frame rate, also the gravity ramp's length and half the hit window. */
  const Fps: nat := 60

  /** `round_time`: seconds a round may last. */
  const RoundTime: real := 100.0

  /** Fruits needed to win. */
  const FruitsToWin: nat := 3

  /** The size both players are constructed with. */
  const PlayerSize: real := 50.0

  /**
   * What differs between the levels: how many dead mobs a win needs, the
   * height below which a player has fallen out, and whether the win and
   * loss checks run for every event or only inside the key-press branch.
   */
  datatype Rules = Rules(requiredMobs: nat, fallLimit: real, checksOnKeyDown: bool)

  const Level1Rules: Rules := Rules(1, 630.0, false)
  const Level2Rules: Rules := Rules(2, 630.0, true)
  const Level3Rules: Rules := Rules(3, 645.0, false)

  /** The keys the event loop reacts to. */
  datatype Key = KeyW | KeySpace | KeyEscape | OtherKey

  /** A queued pygame event, as far as the frame looks at it. */
  datatype Event = Quit | KeyDown(key: Key) | OtherEvent

  /** The end-of-round screens, recorded in the order they are shown. */
  datatype Banner = YouWin | GameOver

  /**
   * The frame loop's state: both players, the level's object list (the
   * registry the scans remove from), the four counters, the camera offset,
   * the `run` flag, and the banners shown so far.
   */
  datatype RoundState = RoundState(
    p1: ActorState,
    p2: ActorState,
    objects: seq<Entity>,
    fruitsCollected: nat,
    collMobs: nat,
    deadMobs: nat,
    eatBuff: nat,
    offsetX: real,
    running: bool,
    shown: seq<Banner>)

  /** Show a banner and stop the round. */
  function Stop(r: RoundState, b: Banner): RoundState {
    r.(shown := r.shown + [b], running := false)
  }

  /** The timer: once `round_time` seconds have passed, show the loss and stop; the frame goes on regardless. */
  function AfterTimer(r: RoundState, seconds: real): RoundState {
    if RoundTime - seconds <= 0.0 then Stop(r, GameOver) else r
  }

  /** A key press: `w` and space jump (at most a double jump), escape stops. */
  function AfterKey(r: RoundState, key: Key): RoundState {
    var r1 := if key == KeyW && r.p1.jumpCount < 2 then r.(p1 := AfterJump(r.p1)) else r;
    var r2 := if key == KeySpace && r1.p2.jumpCount < 2 then r1.(p2 := AfterJump(r1.p2)) else r1;
    if key == KeyEscape then r2.(running := false) else r2
  }

  /** The outcome checks: all fruits and enough dead mobs win; any mob contact loses. */
  function AfterChecks(r: RoundState, rules: Rules): RoundState {
    var r1 := if r.fruitsCollected == FruitsToWin && r.deadMobs == rules.requiredMobs then Stop(r, YouWin) else r;
    if r1.collMobs >= 1 then Stop(r1, GameOver) else r1
  }

  /** Whether an event that is not `Quit` reaches the outcome checks under the level's rules. */
  predicate ChecksRun(rules: Rules, e: Event) {
    !e.Quit? && (e.KeyDown? || !rules.checksOnKeyDown)
  }

  /** One event other than `Quit`. */
  function AfterEvent(r: RoundState, rules: Rules, e: Event): RoundState {
    var r1 := if e.KeyDown? then AfterKey(r, e.key) else r;
    if ChecksRun(rules, e) then AfterChecks(r1, rules) else r1
  }

  /** The event loop: each event in turn, until a `Quit` stops the round and ends the loop. */
  function AfterEvents(r: RoundState, rules: Rules, events: seq<Event>): RoundState
    decreases |events|
  {
    if events == [] then r
    else if events[0].Quit? then r.(running := false)
    else AfterEvents(AfterEvent(r, rules, events[0]), rules, events[1..])
  }

  /** The fall-out check: a player whose bottom is below the level's limit loses the round. */
  function AfterFallCheck(r: RoundState, rules: Rules): RoundState {
    if r.p1.rect.Bottom() > rules.fallLimit || r.p2.rect.Bottom() > rules.fallLimit then Stop(r, GameOver) else r
  }

  /** Both players' `loop`. */
  function AfterLoops(r: RoundState, cfg1: Config, cfg2: Config): RoundState
    requires WellFormed(cfg1) && WellFormed(cfg2)
  {
    r.(p1 := AfterLoop(r.p1, cfg1, Fps), p2 := AfterLoop(r.p2, cfg2, Fps))
  }

  /** Objects of one kind. */
  function OfKind(k: Kind): Entity -> bool {
    (o: Entity) => o.kind == k
  }

  /** A fruit the first player touches. */
  function Picked(pose: Pose, overlaps: Overlap): Entity -> bool {
    (o: Entity) => o.kind == Fruit && overlaps(pose, o)
  }

  /** A mob either player touches. */
  function Bumped(pose1: Pose, pose2: Pose, overlaps: Overlap): Entity -> bool {
    (o: Entity) => o.kind == Mob && (overlaps(pose1, o) || overlaps(pose2, o))
  }

  /** A mob the second player touches. */
  function Stomped(pose: Pose, overlaps: Overlap): Entity -> bool {
    (o: Entity) => o.kind == Mob && overlaps(pose, o)
  }

  /** A buff the second player touches. */
  function Grabbed(pose: Pose, overlaps: Overlap): Entity -> bool {
    (o: Entity) => o.kind == Buff && overlaps(pose, o)
  }

  /** The fruit scan: every fruit the first player touches is removed and counted. */
  function FruitScan(r: RoundState, overlaps: Overlap): RoundState {
    var p := Picked(r.p1.MaskPose(), overlaps);
    r.(objects := Reject(r.objects, p), fruitsCollected := r.fruitsCollected + Count(r.objects, p))
  }

  /** The mob-contact scan: while the buff is still in the list, every mob either player touches is counted. */
  function MobHitScan(r: RoundState, buff: Entity, overlaps: Overlap): RoundState {
    if buff in r.objects then r.(collMobs := r.collMobs + Count(r.objects, Bumped(r.p1.MaskPose(), r.p2.MaskPose(), overlaps)))
    else r
  }

  /** The mob-kill scan: once the buff is gone, every mob the second player touches is removed and counted. */
  function MobKillScan(r: RoundState, buff: Entity, overlaps: Overlap): RoundState {
    var kills := MobKills(r.objects, buff, Stomped(r.p2.MaskPose(), overlaps));
    r.(objects := kills.0, deadMobs := r.deadMobs + kills.1)
  }

  /** What the mob-kill pass leaves of a list, and how many it kills: every stomped mob once the buff is gone, else nothing. */
  function MobKills(objects: seq<Entity>, buff: Entity, stomped: Entity -> bool): (seq<Entity>, nat) {
    if buff !in objects then (Reject(objects, stomped), Count(objects, stomped)) else (objects, 0)
  }

  /** The buff scan: every buff the second player touches is removed and counted. */
  function BuffScan(r: RoundState, overlaps: Overlap): RoundState {
    var p := Grabbed(r.p2.MaskPose(), overlaps);
    r.(objects := Reject(r.objects, p), eatBuff := r.eatBuff + Count(r.objects, p))
  }

  /** The four scans in their order. */
  function Scans(r: RoundState, buff: Entity, overlaps: Overlap): RoundState {
    BuffScan(MobKillScan(MobHitScan(FruitScan(r, overlaps), buff, overlaps), buff, overlaps), overlaps)
  }

  /** `handle_move`, then each player's vertical collision along its own vertical velocity, then the camera. */
  function AfterMotion(r: RoundState, keys: Keys, overlaps: Overlap): RoundState {
    var m1 := MoveFirst(r.p1, r.objects, keys.a, keys.d, overlaps);
    var m2 := MoveSecond(r.p2, r.objects, keys.left, keys.right, overlaps);
    var v1 := VerticalResolve(m1, r.objects, m1.yVel, overlaps).0;
    var v2 := VerticalResolve(m2, r.objects, m2.yVel, overlaps).0;
    r.(p1 := v1, p2 := v2, offsetX := ScrollOffset(r.offsetX, v1.rect, v1.xVel))
  }

  /** The part of a frame that can end the round: the timer, the event loop, the fall-out check. */
  function Outcome(r: RoundState, rules: Rules, seconds: real, events: seq<Event>): RoundState {
    AfterFallCheck(AfterEvents(AfterTimer(r, seconds), rules, events), rules)
  }

  /** One whole frame. */
  function Frame(r: RoundState, rules: Rules, cfg1: Config, cfg2: Config, buff: Entity,
                 seconds: real, events: seq<Event>, keys: Keys, overlaps: Overlap): RoundState
    requires WellFormed(cfg1) && WellFormed(cfg2)
  {
    AfterMotion(Scans(AfterLoops(Outcome(r, rules, seconds, events), cfg1, cfg2), buff, overlaps), keys, overlaps)
  }

  /**
   * One object of a snapshot pass: Python's `objects.remove(obj)` when
   * `obj` matches, applied to the live list, and the match counted.
   */
  method SweepOne(snapshot: seq<Entity>, i: nat, p: Entity -> bool, live: seq<Entity>, removed: nat)
    returns (live': seq<Entity>, removed': nat)
    requires Distinct(snapshot) && i < |snapshot|
    requires live == Swept(snapshot, i, p) && removed == Count(snapshot[..i], p)
    ensures live' == Swept(snapshot, i + 1, p) && removed' == Count(snapshot[..i + 1], p)
  {
    SweepStep(snapshot, i, p);
    CountStep(snapshot, i, p);
    live', removed' := live, removed;
    if p(snapshot[i]) {
      live' := RemoveFirst(live, snapshot[i]);
      removed' := removed + 1;
    }
  }

  /**
   * Python's `for obj in objects[:]: if p(obj): objects.remove(obj)`: a
   * pass over a snapshot of the list that removes each matching object
   * from the live list, returning the live list and how many were removed.
   */
  method RemoveMatching(objects: seq<Entity>, p: Entity -> bool) returns (live: seq<Entity>, removed: nat)
    requires Distinct(objects)
    ensures live == Reject(objects, p) && Distinct(live)
    ensures removed == Count(objects, p)
  {
    var snapshot := objects;
    live, removed := objects, 0;
    var i := 0;
    SweptEnds(snapshot, p);
    while i < |snapshot|
      invariant 0 <= i <= |snapshot|
      invariant live == Swept(snapshot, i, p) && removed == Count(snapshot[..i], p)
    {
      live, removed := SweepOne(snapshot, i, p, live, removed);
      i := i + 1;
    }
    RejectDistinct(snapshot, p);
  }

  /**
   * The mob-kill pass after the first `i` objects of the snapshot: while the
   * buff is in the list nothing is removed or counted; once it is gone, the
   * stomped mobs among those objects are.
   */
  function KillState(snapshot: seq<Entity>, i: nat, buff: Entity, stomped: Entity -> bool): (seq<Entity>, nat)
    requires i <= |snapshot|
  {
    if buff in snapshot then (snapshot, 0) else (Swept(snapshot, i, stomped), Count(snapshot[..i], stomped))
  }

  /**
   * One object of the mob-kill pass: the object is removed and counted
   * only if it is stomped and, at that moment, the buff is absent from the
   * live list.
   */
  method KillOne(snapshot: seq<Entity>, i: nat, buff: Entity, stomped: Entity -> bool, live: seq<Entity>, killed: nat)
    returns (live': seq<Entity>, killed': nat)
    requires Distinct(snapshot) && i < |snapshot| && !stomped(buff)
    requires (live, killed) == KillState(snapshot, i, buff, stomped)
    ensures (live', killed') == KillState(snapshot, i + 1, buff, stomped)
  {
    if buff in snapshot {
      assert buff in live;
    } else {
      SweptWithout(snapshot, i, stomped, buff);
      SweepStep(snapshot, i, stomped);
      CountStep(snapshot, i, stomped);
    }
    live', killed' := live, killed;
    if stomped(snapshot[i]) && buff !in live {
      live' := RemoveFirst(live, snapshot[i]);
      killed' := killed + 1;
    }
  }

  /**
   * The mob-kill scan's pass: like `RemoveMatching`, but each object is
   * removed only if, at that moment, the buff is absent from the live list.
   * Removing mobs never removes the buff, so the answer is the same for the
   * whole pass: all stomped mobs go, or none.
   */
  method KillMobs(objects: seq<Entity>, buff: Entity, stomped: Entity -> bool) returns (live: seq<Entity>, killed: nat)
    requires Distinct(objects) && !stomped(buff)
    ensures (live, killed) == MobKills(objects, buff, stomped)
    ensures Distinct(live)
  {
    var snapshot := objects;
    live, killed := objects, 0;
    var i := 0;
    SweptEnds(snapshot, stomped);
    while i < |snapshot|
      invariant 0 <= i <= |snapshot|
      invariant (live, killed) == KillState(snapshot, i, buff, stomped)
    {
      live, killed := KillOne(snapshot, i, buff, stomped, live, killed);
      i := i + 1;
    }
    RejectDistinct(snapshot, stomped);
  }

  /** The state of a level's frame loop: its two players, its objects and its counters. */
  class Round {
    const rules: Rules
    const p1: Player
    const p2: Player
    /** The level's buff: while it is in `objects` mobs hurt, once eaten they can be killed. */
    const buff: Entity
    var objects: seq<Entity>
    var fruitsCollected: nat
    var collMobs: nat
    var deadMobs: nat
    var eatBuff: nat
    var offsetX: real
    var running: bool
    var shown: seq<Banner>

    function State(): RoundState
      reads this, p1, p2
    {
      RoundState(p1.State(), p2.State(), objects, fruitsCollected, collMobs, deadMobs, eatBuff,
                 offsetX, running, shown)
    }

    ghost predicate Valid()
      reads this, p1, p2
    {
      && p1 != p2 && p1.Valid() && p2.Valid()
      && Distinct(objects) && buff.kind == Buff
    }

    /** The level's set-up: both players at rest, all counters zero, running, nothing shown. */
    constructor (rules: Rules, cfg1: Config, cfg2: Config, x1: real, y1: real, x2: real, y2: real,
                 offsetX: real, objects: seq<Entity>, buff: Entity)
      requires WellFormed(cfg1) && WellFormed(cfg2)
      requires Distinct(objects) && buff.kind == Buff
      ensures Valid() && this.rules == rules && this.buff == buff
      ensures p1.cfg == cfg1 && p2.cfg == cfg2
      ensures State() == RoundState(Initial(x1, y1, PlayerSize, PlayerSize), Initial(x2, y2, PlayerSize, PlayerSize),
                                    objects, 0, 0, 0, 0, offsetX, true, [])
    {
      this.rules := rules;
      p1 := new Player(x1, y1, PlayerSize, PlayerSize, cfg1);
      p2 := new Player(x2, y2, PlayerSize, PlayerSize, cfg2);
      this.buff := buff;
      this.objects := objects;
      fruitsCollected, collMobs, deadMobs, eatBuff := 0, 0, 0, 0;
      this.offsetX := offsetX;
      running := true;
      shown := [];
    }

    method ShowAndStop(b: Banner)
      requires Valid()
      modifies this
      ensures Valid() && State() == Stop(old(State()), b)
    {
      shown := shown + [b];
      running := false;
    }

    method CheckTimer(seconds: real)
      requires Valid()
      modifies this
      ensures Valid() && State() == AfterTimer(old(State()), seconds)
    {
      var remainingTime := RoundTime - seconds;
      if remainingTime <= 0.0 {
        ShowAndStop(GameOver);
      }
    }

    method CheckOutcome()
      requires Valid()
      modifies this
      ensures Valid() && State() == AfterChecks(old(State()), rules)
    {
      if fruitsCollected == FruitsToWin && deadMobs == rules.requiredMobs {
        ShowAndStop(YouWin);
      }
      if collMobs >= 1 {
        ShowAndStop(GameOver);
      }
    }

    method PressKey(key: Key)
      requires Valid()
      modifies this, p1, p2
      ensures Valid() && State() == AfterKey(old(State()), key)
    {
      if key == KeyW && p1.jumpCount < 2 {
        p1.Jump();
      }
      if key == KeySpace && p2.jumpCount < 2 {
        p2.Jump();
      }
      if key == KeyEscape {
        running := false;
      }
    }

    method HandleEvents(events: seq<Event>)
      requires Valid()
      modifies this, p1, p2
      ensures Valid() && State() == AfterEvents(old(State()), rules, events)
    {
      var i := 0;
      assert events[0..] == events;
      while i < |events|
        invariant 0 <= i <= |events| && Valid()
        invariant AfterEvents(old(State()), rules, events) == AfterEvents(State(), rules, events[i..])
      {
        var event := events[i];
        assert events[i..][1..] == events[i + 1..];
        if event.Quit? {
          running := false;
          break;
        }
        if event.KeyDown? {
          PressKey(event.key);
          if rules.checksOnKeyDown {
            CheckOutcome();
          }
        }
        if !rules.checksOnKeyDown {
          CheckOutcome();
        }
        i := i + 1;
      }
    }

    method CheckFall()
      requires Valid()
      modifies this
      ensures Valid() && State() == AfterFallCheck(old(State()), rules)
    {
      if p1.rect.Bottom() > rules.fallLimit || p2.rect.Bottom() > rules.fallLimit {
        ShowAndStop(GameOver);
      }
    }

    /** A removing scan applied to the live list. */
    method Sweep(p: Entity -> bool) returns (removed: nat)
      requires Valid()
      modifies this
      ensures Valid() && State() == old(State()).(objects := Reject(old(objects), p))
      ensures removed == Count(old(objects), p)
    {
      objects, removed := RemoveMatching(objects, p);
    }

    method ScanFruits(overlaps: Overlap)
      requires Valid()
      modifies this
      ensures Valid() && State() == FruitScan(old(State()), overlaps)
    {
      var picked := Sweep(Picked(p1.State().MaskPose(), overlaps));
      fruitsCollected := fruitsCollected + picked;
    }

    /** The mob-contact scan reads the live list for the buff on every object; it removes nothing. */
    method ScanMobHits(overlaps: Overlap)
      requires Valid()
      modifies this
      ensures Valid() && State() == MobHitScan(old(State()), buff, overlaps)
    {
      var bumped := Bumped(p1.State().MaskPose(), p2.State().MaskPose(), overlaps);
      var snapshot := objects;
      var i := 0;
      while i < |snapshot|
        invariant 0 <= i <= |snapshot| && Valid()
        invariant State() == old(State()).(collMobs := collMobs)
        invariant collMobs == old(collMobs) + (if buff in snapshot then Count(snapshot[..i], bumped) else 0)
      {
        assert snapshot[..i + 1][..i] == snapshot[..i];
        if bumped(snapshot[i]) && buff in objects {
          collMobs := collMobs + 1;
        }
        i := i + 1;
      }
      assert snapshot[..i] == snapshot;
    }

    method ScanMobKills(overlaps: Overlap)
      requires Valid()
      modifies this
      ensures Valid() && State() == MobKillScan(old(State()), buff, overlaps)
    {
      var killed;
      objects, killed := KillMobs(objects, buff, Stomped(p2.State().MaskPose(), overlaps));
      deadMobs := deadMobs + killed;
    }

    method ScanBuffs(overlaps: Overlap)
      requires Valid()
      modifies this
      ensures Valid() && State() == BuffScan(old(State()), overlaps)
    {
      var eaten := Sweep(Grabbed(p2.State().MaskPose(), overlaps));
      eatBuff := eatBuff + eaten;
    }

    /** Both players' motion: `handle_move`, the two vertical collisions, the camera. */
    method Motion(keys: Keys, overlaps: Overlap)
      requires Valid() && p1.hasSprite && p2.hasSprite
      modifies this, p1, p2
      ensures Valid() && State() == AfterMotion(old(State()), keys, overlaps)
    {
      HandleMove(p1, p2, objects, keys, overlaps);
      var landed1 := HandleVerticalCollision(p1, objects, p1.yVel, overlaps);
      var landed2 := HandleVerticalCollision(p2, objects, p2.yVel, overlaps);
      offsetX := ScrollOffset(offsetX, p1.rect, p1.xVel);
    }

    /** One frame of the level's `while run` loop, given the elapsed time, the queued events and the held keys. */
    method Step(seconds: real, events: seq<Event>, keys: Keys, overlaps: Overlap)
      requires Valid()
      modifies this, p1, p2
      ensures Valid()
      ensures State() == Frame(old(State()), rules, p1.cfg, p2.cfg, buff, seconds, events, keys, overlaps)
    {
      CheckTimer(seconds);
      HandleEvents(events);
      CheckFall();
      p1.Loop(Fps);
      p2.Loop(Fps);
      ScanFruits(overlaps);
      ScanMobHits(overlaps);
      ScanMobKills(overlaps);
      ScanBuffs(overlaps);
      Motion(keys, overlaps);
    }
  }
}

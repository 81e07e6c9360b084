/**
 * What one level frame guarantees, stated over `Frame`: how a round ends,
 * that the event-gated checks need an event, what the scans conserve, and
 * that a mob can hurt or be killed in a frame but not both.
 */
module LevelProperties {
  import opened Geometry
  import opened Actor
  import opened Lists
  import opened Collision
  import opened Controls
  import opened Screen
  import opened Level
  import ActorProperties

  /**
   * What the event loop leaves alone and what it may do: the list, the
   * counters and the camera are untouched; banners are only appended; the
   * round is never restarted; a win banner needs the winning counters.
   */
  predicate EventsOnlyStopOrJump(r: RoundState, e: RoundState, rules: Rules) {
    && e.objects == r.objects && e.offsetX == r.offsetX
    && e.fruitsCollected == r.fruitsCollected && e.collMobs == r.collMobs
    && e.deadMobs == r.deadMobs && e.eatBuff == r.eatBuff
    && r.shown <= e.shown
    && (e.running ==> r.running)
    && (forall k :: |r.shown| <= k < |e.shown| && e.shown[k] == YouWin ==>
          r.fruitsCollected == FruitsToWin && r.deadMobs == rules.requiredMobs)
  }

  /** A key press shows no banner; it only jumps or stops. */
  lemma KeyOnlyStopsOrJumps(r: RoundState, rules: Rules, key: Key)
    ensures AfterKey(r, key).shown == r.shown
    ensures EventsOnlyStopOrJump(r, AfterKey(r, key), rules)
  {
  }

  lemma ChecksOnlyStop(r: RoundState, rules: Rules)
    ensures EventsOnlyStopOrJump(r, AfterChecks(r, rules), rules)
  {
  }

  lemma OneEventOnlyStopsOrJumps(r: RoundState, rules: Rules, ev: Event)
    ensures EventsOnlyStopOrJump(r, AfterEvent(r, rules, ev), rules)
  {
    var r1 := if ev.KeyDown? then AfterKey(r, ev.key) else r;
    if ev.KeyDown? {
      KeyOnlyStopsOrJumps(r, rules, ev.key);
    }
    assert EventsOnlyStopOrJump(r, r1, rules);
    if ChecksRun(rules, ev) {
      ChecksOnlyStop(r1, rules);
      OnlyStopOrJumpChains(r, r1, AfterChecks(r1, rules), rules);
    }
  }

  lemma {:induction false} EventsOnlyStopOrJumpAll(r: RoundState, rules: Rules, events: seq<Event>)
    ensures EventsOnlyStopOrJump(r, AfterEvents(r, rules, events), rules)
    decreases |events|
  {
    if events != [] && !events[0].Quit? {
      var m := AfterEvent(r, rules, events[0]);
      var e := AfterEvents(m, rules, events[1..]);
      OneEventOnlyStopsOrJumps(r, rules, events[0]);
      EventsOnlyStopOrJumpAll(m, rules, events[1..]);
      forall k | |r.shown| <= k < |e.shown| && e.shown[k] == YouWin
        ensures r.fruitsCollected == FruitsToWin && r.deadMobs == rules.requiredMobs
      {
        if k < |m.shown| {
          assert m.shown[k] == YouWin;
        }
      }
    }
  }

  lemma {:induction false} OnlyStopOrJumpChains(a: RoundState, b: RoundState, c: RoundState, rules: Rules)
    requires EventsOnlyStopOrJump(a, b, rules) && EventsOnlyStopOrJump(b, c, rules)
    ensures EventsOnlyStopOrJump(a, c, rules)
  {
    forall k | |a.shown| <= k < |c.shown| && c.shown[k] == YouWin
      ensures a.fruitsCollected == FruitsToWin && a.deadMobs == rules.requiredMobs
    {
      if k < |b.shown| {
        assert b.shown[k] == YouWin;
      }
    }
  }

  /** Timer, events and fall check together: the part of the frame that can end the round. */
  lemma OutcomeOnlyStopsOrJumps(r: RoundState, rules: Rules, seconds: real, events: seq<Event>)
    ensures EventsOnlyStopOrJump(r, Outcome(r, rules, seconds, events), rules)
  {
    var t := AfterTimer(r, seconds);
    var e := AfterEvents(t, rules, events);
    assert EventsOnlyStopOrJump(r, t, rules);
    EventsOnlyStopOrJumpAll(t, rules, events);
    OnlyStopOrJumpChains(r, t, e, rules);
    assert EventsOnlyStopOrJump(e, AfterFallCheck(e, rules), rules);
    OnlyStopOrJumpChains(r, e, AfterFallCheck(e, rules), rules);
  }

  /**
   * The frame splits at the checks: its banners and flag are those the
   * checks leave, and its list and counters are those the scans leave.
   */
  lemma FrameKeepsOutcome(r: RoundState, rules: Rules, cfg1: Config, cfg2: Config, buff: Entity,
                          seconds: real, events: seq<Event>, keys: Keys, overlaps: Overlap)
    requires WellFormed(cfg1) && WellFormed(cfg2)
    ensures var f, c := Frame(r, rules, cfg1, cfg2, buff, seconds, events, keys, overlaps), Outcome(r, rules, seconds, events);
      var s := Scans(AfterLoops(c, cfg1, cfg2), buff, overlaps);
      && f.shown == c.shown && f.running == c.running
      && f.objects == s.objects && f.fruitsCollected == s.fruitsCollected && f.collMobs == s.collMobs
      && f.deadMobs == s.deadMobs && f.eatBuff == s.eatBuff
  {
  }

  /**
   * Motion after the scans: the players move and the camera follows, but
   * the list, the counters, the flag and the banners stay as they are.
   */
  lemma MotionKeepsRound(r: RoundState, keys: Keys, overlaps: Overlap)
    ensures var m := AfterMotion(r, keys, overlaps);
      m == r.(p1 := m.p1, p2 := m.p2, offsetX := m.offsetX)
  {
  }

  /**
   * The four scans only shrink the list, only raise the counters, and
   * leave the players, the camera, the flag and the banners alone.
   */
  lemma ScansKeepRound(r: RoundState, buff: Entity, overlaps: Overlap)
    ensures var s := Scans(r, buff, overlaps);
      && s == r.(objects := s.objects, fruitsCollected := s.fruitsCollected, collMobs := s.collMobs,
                 deadMobs := s.deadMobs, eatBuff := s.eatBuff)
      && (forall o :: o in s.objects ==> o in r.objects)
      && s.fruitsCollected >= r.fruitsCollected && s.collMobs >= r.collMobs
      && s.deadMobs >= r.deadMobs && s.eatBuff >= r.eatBuff
  {
  }

  /** A banner is only ever added, and the frame never restarts a stopped round. */
  lemma FrameNeverRestarts(r: RoundState, rules: Rules, cfg1: Config, cfg2: Config, buff: Entity,
                           seconds: real, events: seq<Event>, keys: Keys, overlaps: Overlap)
    requires WellFormed(cfg1) && WellFormed(cfg2)
    ensures var f := Frame(r, rules, cfg1, cfg2, buff, seconds, events, keys, overlaps);
      && r.shown <= f.shown
      && (f.running ==> r.running)
  {
    FrameKeepsOutcome(r, rules, cfg1, cfg2, buff, seconds, events, keys, overlaps);
    OutcomeOnlyStopsOrJumps(r, rules, seconds, events);
  }

  /** Once `round_time` has passed, the frame shows the loss first and the round is over. */
  lemma TimeUpLoses(r: RoundState, rules: Rules, cfg1: Config, cfg2: Config, buff: Entity,
                    seconds: real, events: seq<Event>, keys: Keys, overlaps: Overlap)
    requires WellFormed(cfg1) && WellFormed(cfg2) && seconds >= RoundTime
    ensures var f := Frame(r, rules, cfg1, cfg2, buff, seconds, events, keys, overlaps);
      && !f.running && |f.shown| > |r.shown| && f.shown[|r.shown|] == GameOver
  {
    FrameKeepsOutcome(r, rules, cfg1, cfg2, buff, seconds, events, keys, overlaps);
    var t := AfterTimer(r, seconds);
    var c := Outcome(r, rules, seconds, events);
    var e := AfterEvents(t, rules, events);
    EventsOnlyStopOrJumpAll(t, rules, events);
    assert t.shown <= c.shown;
    assert c.shown[|r.shown|] == t.shown[|r.shown|];
  }

  /**
   * A win banner is shown by the checks only if, at the start of the frame, all fruits
   * had been collected and the level's number of mobs killed: the checks
   * read the counters before this frame's scans update them.
   */
  lemma WinNeedsEverything(r: RoundState, rules: Rules, seconds: real, events: seq<Event>)
    ensures var c := Outcome(r, rules, seconds, events);
      && r.shown <= c.shown
      && (forall k :: |r.shown| <= k < |c.shown| && c.shown[k] == YouWin ==>
            r.fruitsCollected == FruitsToWin && r.deadMobs == rules.requiredMobs)
  {
    OutcomeOnlyStopsOrJumps(r, rules, seconds, events);
  }

  /**
   * Mob contact loses at the first event that reaches the checks: an event
   * of any kind but `Quit` in the first and third levels, a key press in
   * the second.
   */
  lemma ContactLoses(r: RoundState, rules: Rules, seconds: real, events: seq<Event>)
    requires r.collMobs >= 1 && events != [] && ChecksRun(rules, events[0])
    ensures var c := Outcome(r, rules, seconds, events);
      !c.running && exists k :: |r.shown| <= k < |c.shown| && c.shown[k] == GameOver
  {
    var t := AfterTimer(r, seconds);
    var m := AfterEvent(t, rules, events[0]);
    assert m.shown[|m.shown| - 1] == GameOver && !m.running;
    assert |m.shown| > |r.shown|;
    EventsOnlyStopOrJumpAll(m, rules, events[1..]);
    var e := AfterEvents(m, rules, events[1..]);
    assert e == AfterEvents(t, rules, events);
    var c := AfterFallCheck(e, rules);
    assert c == Outcome(r, rules, seconds, events);
    assert m.shown <= c.shown;
    assert c.shown[|m.shown| - 1] == GameOver;
  }

  /**
   * The checks are event-gated: in a frame in which no event reaches them,
   * no win is shown, however many fruits and mobs the counters hold; only
   * the timer or a fall can show a banner.
   */
  lemma NoEventNoWin(r: RoundState, rules: Rules, seconds: real, events: seq<Event>)
    requires forall i :: 0 <= i < |events| ==> !ChecksRun(rules, events[i]) && !events[i].Quit?
    ensures var c := Outcome(r, rules, seconds, events);
      && r.shown <= c.shown
      && forall k :: |r.shown| <= k < |c.shown| ==> c.shown[k] == GameOver
  {
    var t := AfterTimer(r, seconds);
    UngatedEventsShowNothing(t, rules, events);
  }

  /** Events that reach neither the checks nor a `Quit` add no banner. */
  lemma {:induction false} UngatedEventsShowNothing(r: RoundState, rules: Rules, events: seq<Event>)
    requires forall i :: 0 <= i < |events| ==> !ChecksRun(rules, events[i]) && !events[i].Quit?
    ensures AfterEvents(r, rules, events).shown == r.shown
    decreases |events|
  {
    if events != [] {
      assert forall i :: 0 <= i < |events[1..]| ==> events[1..][i] == events[i + 1];
      UngatedEventsShowNothing(AfterEvent(r, rules, events[0]), rules, events[1..]);
    }
  }

  /**
   * In one frame a mob either hurts or is killed, never both: contact is
   * counted only while the buff is in the list, a kill only once it is
   * gone, and the buff scan runs after both mob scans.
   */
  lemma MobOutcomesExclusive(r: RoundState, rules: Rules, cfg1: Config, cfg2: Config, buff: Entity,
                             seconds: real, events: seq<Event>, keys: Keys, overlaps: Overlap)
    requires WellFormed(cfg1) && WellFormed(cfg2) && buff.kind == Buff
    ensures var f := Frame(r, rules, cfg1, cfg2, buff, seconds, events, keys, overlaps);
      && (f.collMobs > r.collMobs ==> f.deadMobs == r.deadMobs)
      && (buff in r.objects ==> f.deadMobs == r.deadMobs)
      && (buff !in r.objects ==> f.collMobs == r.collMobs)
  {
    FrameKeepsOutcome(r, rules, cfg1, cfg2, buff, seconds, events, keys, overlaps);
    OutcomeOnlyStopsOrJumps(r, rules, seconds, events);
    var c := Outcome(r, rules, seconds, events);
    var l := AfterLoops(c, cfg1, cfg2);
    var fr := FruitScan(l, overlaps);
    assert buff in fr.objects <==> buff in r.objects;
  }

  /**
   * Nothing is lost: over a frame, the fruits collected plus the fruits
   * still in the list stay the same, and likewise the mobs killed plus the
   * mobs in the list, and the buffs eaten plus the buffs in the list.
   */
  lemma FrameConserves(r: RoundState, rules: Rules, cfg1: Config, cfg2: Config, buff: Entity,
                       seconds: real, events: seq<Event>, keys: Keys, overlaps: Overlap)
    requires WellFormed(cfg1) && WellFormed(cfg2)
    ensures var f := Frame(r, rules, cfg1, cfg2, buff, seconds, events, keys, overlaps);
      && f.fruitsCollected + Count(f.objects, OfKind(Fruit)) == r.fruitsCollected + Count(r.objects, OfKind(Fruit))
      && f.deadMobs + Count(f.objects, OfKind(Mob)) == r.deadMobs + Count(r.objects, OfKind(Mob))
      && f.eatBuff + Count(f.objects, OfKind(Buff)) == r.eatBuff + Count(r.objects, OfKind(Buff))
      && (forall o :: o in f.objects ==> o in r.objects)
  {
    FrameKeepsOutcome(r, rules, cfg1, cfg2, buff, seconds, events, keys, overlaps);
    OutcomeOnlyStopsOrJumps(r, rules, seconds, events);
    var c := Outcome(r, rules, seconds, events);
    var l := AfterLoops(c, cfg1, cfg2);
    ScansConserve(l, buff, overlaps, Fruit);
    ScansConserve(l, buff, overlaps, Mob);
    ScansConserve(l, buff, overlaps, Buff);
    ScansKeepRound(l, buff, overlaps);
  }

  /** The counter that a kind's removals feed. */
  function Tally(r: RoundState, k: Kind): nat {
    match k
    case Fruit => r.fruitsCollected
    case Mob => r.deadMobs
    case Buff => r.eatBuff
    case Block => 0
  }

  /** From `a` to `b`, the objects of kind `k` that left the list are exactly those `k`'s counter gained. */
  predicate Conserves(a: RoundState, b: RoundState, k: Kind) {
    Tally(b, k) + Count(b.objects, OfKind(k)) == Tally(a, k) + Count(a.objects, OfKind(k))
  }

  lemma FruitScanConserves(r: RoundState, overlaps: Overlap, k: Kind)
    ensures Conserves(r, FruitScan(r, overlaps), k)
  {
    var picked := Picked(r.p1.MaskPose(), overlaps);
    if k == Fruit {
      RejectCountWithin(r.objects, picked, OfKind(k));
    } else {
      RejectCountOutside(r.objects, picked, OfKind(k));
    }
  }

  lemma MobKillScanConserves(r: RoundState, buff: Entity, overlaps: Overlap, k: Kind)
    ensures Conserves(r, MobKillScan(r, buff, overlaps), k)
  {
    var stomped := Stomped(r.p2.MaskPose(), overlaps);
    if buff !in r.objects {
      if k == Mob {
        RejectCountWithin(r.objects, stomped, OfKind(k));
      } else {
        RejectCountOutside(r.objects, stomped, OfKind(k));
      }
    }
  }

  lemma BuffScanConserves(r: RoundState, overlaps: Overlap, k: Kind)
    ensures Conserves(r, BuffScan(r, overlaps), k)
  {
    var grabbed := Grabbed(r.p2.MaskPose(), overlaps);
    if k == Buff {
      RejectCountWithin(r.objects, grabbed, OfKind(k));
    } else {
      RejectCountOutside(r.objects, grabbed, OfKind(k));
    }
  }

  /** Each scan removes objects of one kind only and counts every removal. */
  lemma ScansConserve(r: RoundState, buff: Entity, overlaps: Overlap, k: Kind)
    ensures var s := Scans(r, buff, overlaps);
      Tally(s, k) + Count(s.objects, OfKind(k)) == Tally(r, k) + Count(r.objects, OfKind(k))
  {
    var f := FruitScan(r, overlaps);
    var h := MobHitScan(f, buff, overlaps);
    var d := MobKillScan(h, buff, overlaps);
    FruitScanConserves(r, overlaps, k);
    assert Conserves(f, h, k);
    MobKillScanConserves(h, buff, overlaps, k);
    BuffScanConserves(d, overlaps, k);
  }

  /**
   * Running the fruit scan again with the player where it is finds
   * nothing more: it removes and counts every touched fruit at once.
   */
  lemma FruitScanIdempotent(r: RoundState, overlaps: Overlap)
    ensures FruitScan(FruitScan(r, overlaps), overlaps) == FruitScan(r, overlaps)
  {
    RejectTwice(r.objects, Picked(r.p1.MaskPose(), overlaps));
  }

  /** Likewise for the buff scan. */
  lemma BuffScanIdempotent(r: RoundState, overlaps: Overlap)
    ensures BuffScan(BuffScan(r, overlaps), overlaps) == BuffScan(r, overlaps)
  {
    RejectTwice(r.objects, Grabbed(r.p2.MaskPose(), overlaps));
  }

  /** A buff the second player touches is gone after the buff scan, and so the mobs lose their power over the players. */
  lemma TouchedBuffIsEaten(r: RoundState, buff: Entity, overlaps: Overlap)
    requires buff.kind == Buff && overlaps(r.p2.MaskPose(), buff)
    ensures buff !in BuffScan(r, overlaps).objects
    ensures MobHitScan(BuffScan(r, overlaps), buff, overlaps).collMobs == r.collMobs
  {
    assert Grabbed(r.p2.MaskPose(), overlaps)(buff);
  }

  /**
   * What the part of a frame before the loops does to the players' bodies:
   * boxes and horizontal velocities stay, and the double-jump limit holds.
   */
  predicate BodiesKept(a: RoundState, b: RoundState) {
    && b.p1.rect == a.p1.rect && b.p2.rect == a.p2.rect
    && b.p1.xVel == a.p1.xVel && b.p2.xVel == a.p2.xVel
    && (a.p1.jumpCount <= 2 ==> b.p1.jumpCount <= 2)
    && (a.p2.jumpCount <= 2 ==> b.p2.jumpCount <= 2)
  }

  /**
   * A key press only jumps: a player may jump while it has jumped fewer
   * than twice, so the count never passes 2, and a player that has already
   * jumped twice is left exactly as it was.
   */
  lemma KeyKeepsJumpLimit(r: RoundState, key: Key)
    ensures var k := AfterKey(r, key);
      && BodiesKept(r, k)
      && (r.p1.jumpCount >= 2 ==> k.p1 == r.p1)
      && (r.p2.jumpCount >= 2 ==> k.p2 == r.p2)
  {
  }

  /** The event loop neither moves a box nor changes a horizontal velocity, and keeps the jump limit. */
  lemma {:induction false} EventsKeepBodies(r: RoundState, rules: Rules, events: seq<Event>)
    ensures BodiesKept(r, AfterEvents(r, rules, events))
    decreases |events|
  {
    if events != [] && !events[0].Quit? {
      var m := AfterEvent(r, rules, events[0]);
      if events[0].KeyDown? {
        KeyKeepsJumpLimit(r, events[0].key);
      }
      assert BodiesKept(r, m);
      EventsKeepBodies(m, rules, events[1..]);
    }
  }

  /** Likewise for the timer, the events and the fall check together. */
  lemma OutcomeKeepsBodies(r: RoundState, rules: Rules, seconds: real, events: seq<Event>)
    ensures BodiesKept(r, Outcome(r, rules, seconds, events))
  {
    EventsKeepBodies(AfterTimer(r, seconds), rules, events);
  }

  /**
   * Winning counters and a first event that reaches the checks show the
   * win banner in that frame, and the round is over.
   */
  lemma WinShown(r: RoundState, rules: Rules, seconds: real, events: seq<Event>)
    requires r.fruitsCollected == FruitsToWin && r.deadMobs == rules.requiredMobs
    requires events != [] && ChecksRun(rules, events[0])
    ensures var c := Outcome(r, rules, seconds, events);
      !c.running && exists k :: |r.shown| <= k < |c.shown| && c.shown[k] == YouWin
  {
    var t := AfterTimer(r, seconds);
    var m := AfterEvent(t, rules, events[0]);
    assert |t.shown| >= |r.shown|;
    assert m.shown[|t.shown|] == YouWin && !m.running;
    EventsOnlyStopOrJumpAll(m, rules, events[1..]);
    var e := AfterEvents(m, rules, events[1..]);
    assert e == AfterEvents(t, rules, events);
    var c := AfterFallCheck(e, rules);
    assert c == Outcome(r, rules, seconds, events);
    assert m.shown <= c.shown;
    assert c.shown[|t.shown|] == YouWin;
  }

  /**
   * A player whose box is below the level's limit at the start of the frame
   * loses: the frame's last banner is the loss and the round is over,
   * since nothing before the fall check moves a box.
   */
  lemma FallLoses(r: RoundState, rules: Rules, cfg1: Config, cfg2: Config, buff: Entity,
                  seconds: real, events: seq<Event>, keys: Keys, overlaps: Overlap)
    requires WellFormed(cfg1) && WellFormed(cfg2)
    requires r.p1.rect.Bottom() > rules.fallLimit || r.p2.rect.Bottom() > rules.fallLimit
    ensures var f := Frame(r, rules, cfg1, cfg2, buff, seconds, events, keys, overlaps);
      && !f.running && |f.shown| > |r.shown| && f.shown[|f.shown| - 1] == GameOver
  {
    FrameKeepsOutcome(r, rules, cfg1, cfg2, buff, seconds, events, keys, overlaps);
    var t := AfterTimer(r, seconds);
    EventsKeepBodies(t, rules, events);
    EventsOnlyStopOrJumpAll(t, rules, events);
  }

  /** No frame takes a player past the double jump: key presses stop at 2 and nothing else raises the count. */
  lemma FrameKeepsJumpLimit(r: RoundState, rules: Rules, cfg1: Config, cfg2: Config, buff: Entity,
                            seconds: real, events: seq<Event>, keys: Keys, overlaps: Overlap)
    requires WellFormed(cfg1) && WellFormed(cfg2)
    requires r.p1.jumpCount <= 2 && r.p2.jumpCount <= 2
    ensures var f := Frame(r, rules, cfg1, cfg2, buff, seconds, events, keys, overlaps);
      f.p1.jumpCount <= 2 && f.p2.jumpCount <= 2
  {
    var c := Outcome(r, rules, seconds, events);
    OutcomeKeepsBodies(r, rules, seconds, events);
    var l := AfterLoops(c, cfg1, cfg2);
    var s := Scans(l, buff, overlaps);
    ScansKeepRound(l, buff, overlaps);
    var m1 := MoveFirst(s.p1, s.objects, keys.a, keys.d, overlaps);
    var m2 := MoveSecond(s.p2, s.objects, keys.left, keys.right, overlaps);
    MoveFirstEffect(s.p1, s.objects, keys.a, keys.d, overlaps);
    MoveSecondEffect(s.p2, s.objects, keys.left, keys.right, overlaps);
    ResolveKeepsHorizontal(m1, s.objects, m1.yVel, overlaps);
    ResolveKeepsHorizontal(m2, s.objects, m2.yVel, overlaps);
  }

  /**
   * The camera over a whole frame. `loop` moves the first player by the
   * horizontal velocity it had when the frame began, and the scroll then
   * adds the velocity this frame's `handle_move` gave it. So when the
   * camera moves, the player's on-screen position shifts by the difference
   * of the two velocities; while the velocity is held from one frame to
   * the next, the player stays where it was on screen.
   */
  lemma FrameScroll(r: RoundState, rules: Rules, cfg1: Config, cfg2: Config, buff: Entity,
                    seconds: real, events: seq<Event>, keys: Keys, overlaps: Overlap)
    requires WellFormed(cfg1) && WellFormed(cfg2)
    ensures var f := Frame(r, rules, cfg1, cfg2, buff, seconds, events, keys, overlaps);
      && f.p1.rect.x == r.p1.rect.x + r.p1.xVel
      && f.offsetX == ScrollOffset(r.offsetX, f.p1.rect, f.p1.xVel)
      && (f.offsetX != r.offsetX ==>
            f.p1.rect.x - f.offsetX == (r.p1.rect.x - r.offsetX) + (r.p1.xVel - f.p1.xVel))
      && (f.offsetX != r.offsetX && f.p1.xVel == r.p1.xVel ==>
            f.p1.rect.x - f.offsetX == r.p1.rect.x - r.offsetX)
  {
    var c := Outcome(r, rules, seconds, events);
    OutcomeKeepsBodies(r, rules, seconds, events);
    OutcomeOnlyStopsOrJumps(r, rules, seconds, events);
    ActorProperties.LoopEffect(c.p1, cfg1, Fps);
    var l := AfterLoops(c, cfg1, cfg2);
    var s := Scans(l, buff, overlaps);
    ScansKeepRound(l, buff, overlaps);
    var m1 := MoveFirst(s.p1, s.objects, keys.a, keys.d, overlaps);
    MoveFirstEffect(s.p1, s.objects, keys.a, keys.d, overlaps);
    var v1 := VerticalResolve(m1, s.objects, m1.yVel, overlaps).0;
    ResolveKeepsHorizontal(m1, s.objects, m1.yVel, overlaps);
    ScrollRule(s.offsetX, v1.rect, v1.xVel);
  }

  /**
   * The three levels as written: levels 1 and 3 run the checks on every
   * event that is not `Quit`, level 2 only on a key press; wins need 1, 2
   * and 3 dead mobs; level 3 lets a player fall 15 pixels further.
   */
  lemma LevelRulesAsWritten()
    ensures ChecksRun(Level1Rules, OtherEvent) && ChecksRun(Level3Rules, OtherEvent)
    ensures !ChecksRun(Level2Rules, OtherEvent) && ChecksRun(Level2Rules, KeyDown(OtherKey))
    ensures Level1Rules.requiredMobs == 1 && Level2Rules.requiredMobs == 2 && Level3Rules.requiredMobs == 3
    ensures Level3Rules.fallLimit == Level1Rules.fallLimit + 15.0 == Level2Rules.fallLimit + 15.0
  {
  }

  /**
   * In the second level an event that is not a key press never shows a win,
   * whatever the counters hold, where in the first and third it would.
   */
  lemma LevelTwoNeedsKeyToWin(r: RoundState)
    requires r.fruitsCollected == FruitsToWin && r.deadMobs == Level2Rules.requiredMobs && r.collMobs == 0
    ensures AfterEvent(r, Level2Rules, OtherEvent).shown == r.shown
    ensures AfterEvent(r, Level2Rules, KeyDown(OtherKey)).shown == r.shown + [YouWin]
    ensures var r1 := r.(deadMobs := Level1Rules.requiredMobs);
      AfterEvent(r1, Level1Rules, OtherEvent).shown == r.shown + [YouWin]
  {
  }
}

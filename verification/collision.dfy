/**
 * The two collision resolvers of tutorial.py: the horizontal probe
 * `collide` (lines 569-596), which moves the actor, tests and moves it back,
 * and `handle_vertical_collision` (lines 536-566), which snaps the actor onto
 * or under every object it overlaps after its vertical move.
 */
module Collision {
  import opened Geometry
  import opened Actor
  import opened Lists

  datatype Option<T> = None | Some(value: T)

  /** What the mask test sees of an actor moved sideways by `dx`. */
  function ShiftedPose(s: ActorState, dx: real): Pose {
    Pose(s.rect.(x := s.rect.x + dx), s.sheet, s.frame)
  }

  /**
   * The first object in list order that overlaps the pose, or `None` when
   * none does.
   */
  function FirstOverlap(objects: seq<Entity>, p: Pose, overlaps: Overlap): (r: Option<Entity>)
    ensures r.None? <==> forall o :: o in objects ==> !overlaps(p, o)
    ensures r.Some? ==> exists i :: 0 <= i < |objects| && objects[i] == r.value && overlaps(p, objects[i]) &&
                                   forall j :: 0 <= j < i ==> !overlaps(p, objects[j])
    decreases |objects|
  {
    if objects == [] then None
    else if overlaps(p, objects[0]) then Some(objects[0])
    else
      var r := FirstOverlap(objects[1..], p, overlaps);
      assert forall o :: o in objects ==> o == objects[0] || o in objects[1..];
      assert r.Some? ==> exists i :: 1 <= i < |objects| && objects[i] == r.value && overlaps(p, objects[i]) &&
                                     forall j :: 0 <= j < i ==> !overlaps(p, objects[j]) by {
        if r.Some? {
          var i :| 0 <= i < |objects[1..]| && objects[1..][i] == r.value && overlaps(p, objects[1..][i]) &&
                   forall j :: 0 <= j < i ==> !overlaps(p, objects[1..][j]);
          assert objects[i + 1] == r.value;
          forall j | 0 <= j < i + 1 ensures !overlaps(p, objects[j]) {
            if j > 0 { assert objects[j] == objects[1..][j - 1]; }
          }
        }
      }
      r
  }

  /**
   * `collide`: probe a sideways move of `dx` and report the first object the
   * moved actor would overlap. The probe moves the actor and moves it back,
   * so the actor's state is exactly as before.
   */
  method Collide(player: Player, objects: seq<Entity>, dx: real, overlaps: Overlap)
    returns (collided: Option<Entity>)
    requires player.Valid() && player.hasSprite
    modifies player
    ensures player.Valid() && player.State() == old(player.State())
    ensures collided == FirstOverlap(objects, ShiftedPose(old(player.State()), dx), overlaps)
  {
    ghost var start := player.State();
    ghost var pose := ShiftedPose(start, dx);
    player.Move(dx, 0.0);
    player.Update();
    ghost var probing := player.State();
    assert probing.MaskPose() == pose;
    collided := None;
    var i := 0;
    assert objects[0..] == objects;
    while i < |objects|
      invariant 0 <= i <= |objects|
      invariant player.State() == probing
      invariant collided == None
      invariant FirstOverlap(objects, pose, overlaps) == FirstOverlap(objects[i..], pose, overlaps)
    {
      assert objects[i..][1..] == objects[i + 1..];
      if overlaps(player.State().MaskPose(), objects[i]) {
        collided := Some(objects[i]);
        break;
      }
      i := i + 1;
    }
    player.Move(-dx, 0.0);
    assert player.State() == start;
    player.Update();
  }

  /** The snap applied when the actor overlaps `o` after a vertical move of sign `dy`. */
  function Snap(s: ActorState, o: Entity, dy: real): ActorState {
    if dy > 0.0 then AfterLanded(s.(rect := s.rect.(y := o.box.Top() - s.rect.h)))
    else if dy < 0.0 then AfterHitHead(s.(rect := s.rect.(y := o.box.Bottom())))
    else s
  }

  /**
   * `handle_vertical_collision` as a function: each object in turn is tested
   * against the actor as already snapped by the earlier ones; the result is
   * the final actor state and the objects that overlapped, in list order.
   */
  function VerticalResolve(s: ActorState, objects: seq<Entity>, dy: real, overlaps: Overlap): (ActorState, seq<Entity>)
    decreases |objects|
  {
    if objects == [] then (s, [])
    else if overlaps(s.MaskPose(), objects[0]) then
      var rest := VerticalResolve(Snap(s, objects[0], dy), objects[1..], dy, overlaps);
      (rest.0, [objects[0]] + rest.1)
    else VerticalResolve(s, objects[1..], dy, overlaps)
  }

  /**
   * The snap of `handle_vertical_collision` for one overlapped object:
   * falling, the actor's bottom goes to the object's top and it lands;
   * rising, its top goes to the object's bottom and it bounces.
   */
  method SnapTo(player: Player, obj: Entity, dy: real)
    requires player.Valid()
    modifies player
    ensures player.Valid() && player.State() == Snap(old(player.State()), obj, dy)
  {
    if dy > 0.0 {
      player.rect := player.rect.(y := obj.box.Top() - player.rect.h);
      player.Landed();
    } else if dy < 0.0 {
      player.rect := player.rect.(y := obj.box.Bottom());
      player.HitHead();
    }
  }

  /**
   * `handle_vertical_collision`: resolve the actor against every object and
   * return those it overlapped.
   */
  method HandleVerticalCollision(player: Player, objects: seq<Entity>, dy: real, overlaps: Overlap)
    returns (collided: seq<Entity>)
    requires player.Valid()
    modifies player
    ensures player.Valid()
    ensures (player.State(), collided) == VerticalResolve(old(player.State()), objects, dy, overlaps)
  {
    collided := [];
    var i := 0;
    assert objects[0..] == objects;
    ghost var whole := VerticalResolve(player.State(), objects, dy, overlaps);
    assert [] + whole.1 == whole.1;
    while i < |objects|
      invariant 0 <= i <= |objects| && player.Valid()
      invariant var rest := VerticalResolve(player.State(), objects[i..], dy, overlaps);
        whole == (rest.0, collided + rest.1)
    {
      assert objects[i..][1..] == objects[i + 1..];
      var obj := objects[i];
      if overlaps(player.State().MaskPose(), obj) {
        ghost var before := player.State();
        SnapTo(player, obj, dy);
        ghost var after := VerticalResolve(player.State(), objects[i + 1..], dy, overlaps);
        assert VerticalResolve(before, objects[i..], dy, overlaps) == (after.0, [obj] + after.1);
        assert collided + ([obj] + after.1) == (collided + [obj]) + after.1;
        collided := collided + [obj];
      }
      i := i + 1;
    }
    assert objects[i..] == [];
    assert collided + [] == collided;
  }

  /**
   * Vertical resolution never moves the actor sideways nor changes its
   * horizontal velocity, and it can only reset the jump count (on landing).
   */
  lemma {:induction false} ResolveKeepsHorizontal(s: ActorState, objects: seq<Entity>, dy: real, overlaps: Overlap)
    ensures var r := VerticalResolve(s, objects, dy, overlaps).0;
      r.rect.x == s.rect.x && r.xVel == s.xVel && r.jumpCount <= s.jumpCount
    decreases |objects|
  {
    if objects != [] {
      if overlaps(s.MaskPose(), objects[0]) {
        ResolveKeepsHorizontal(Snap(s, objects[0], dy), objects[1..], dy, overlaps);
      } else {
        ResolveKeepsHorizontal(s, objects[1..], dy, overlaps);
      }
    }
  }

  /** The objects a pose touches, as a predicate for `Filter`. */
  function Touching(p: Pose, overlaps: Overlap): Entity -> bool {
    o => overlaps(p, o)
  }

  /**
   * The reported objects are a subsequence of the level's objects: each is
   * reported at most once per occurrence and in list order.
   */
  lemma {:induction false} ResolveInOrder(s: ActorState, objects: seq<Entity>, dy: real, overlaps: Overlap)
    ensures IsSubsequence(VerticalResolve(s, objects, dy, overlaps).1, objects)
    decreases |objects|
  {
    if objects != [] {
      var o := objects[0];
      if overlaps(s.MaskPose(), o) {
        var rest := VerticalResolve(Snap(s, o, dy), objects[1..], dy, overlaps);
        ResolveInOrder(Snap(s, o, dy), objects[1..], dy, overlaps);
        assert ([o] + rest.1)[1..] == rest.1;
      } else {
        ResolveInOrder(s, objects[1..], dy, overlaps);
        SubsequenceSkip(VerticalResolve(s, objects, dy, overlaps).1, o, objects[1..]);
        assert [o] + objects[1..] == objects;
      }
    }
  }

  /**
   * Nothing is reported exactly when nothing overlaps the actor as it
   * stands, and then the actor is left as it was.
   */
  lemma {:induction false} ResolveNothing(s: ActorState, objects: seq<Entity>, dy: real, overlaps: Overlap)
    ensures var r := VerticalResolve(s, objects, dy, overlaps);
      && (r.1 == [] <==> forall o :: o in objects ==> !overlaps(s.MaskPose(), o))
      && (r.1 == [] ==> r.0 == s)
    decreases |objects|
  {
    if objects != [] {
      ResolveNothing(s, objects[1..], dy, overlaps);
      assert forall o :: o in objects <==> o == objects[0] || o in objects[1..];
    }
  }

  /**
   * With no vertical motion nothing moves: the actor is unchanged and the
   * reported objects are exactly those it overlaps, in list order.
   */
  lemma {:induction false} ResolveAtRest(s: ActorState, objects: seq<Entity>, overlaps: Overlap)
    ensures VerticalResolve(s, objects, 0.0, overlaps) == (s, Filter(objects, Touching(s.MaskPose(), overlaps)))
    decreases |objects|
  {
    if objects != [] {
      var touching := Touching(s.MaskPose(), overlaps);
      ResolveAtRest(s, objects[1..], overlaps);
      FilterCons(objects, touching);
      assert touching(objects[0]) == overlaps(s.MaskPose(), objects[0]);
      var rest := Filter(objects[1..], touching);
      if touching(objects[0]) {
        assert Snap(s, objects[0], 0.0) == s;
      } else {
        assert [] + rest == rest;
      }
    }
  }

  /**
   * Falling onto objects: the actor ends standing on the LAST object it
   * overlapped (its bottom at that object's top), landed, and otherwise
   * as it was.
   */
  lemma {:induction false} ResolveFalling(s: ActorState, objects: seq<Entity>, dy: real, overlaps: Overlap)
    requires dy > 0.0
    ensures var r := VerticalResolve(s, objects, dy, overlaps);
      r.1 != [] ==> r.0 == AfterLanded(s.(rect := s.rect.(y := r.1[|r.1| - 1].box.Top() - s.rect.h)))
    decreases |objects|
  {
    if objects != [] {
      var o := objects[0];
      if overlaps(s.MaskPose(), o) {
        var s' := Snap(s, o, dy);
        ResolveFalling(s', objects[1..], dy, overlaps);
        ResolveNothing(s', objects[1..], dy, overlaps);
      } else {
        ResolveFalling(s, objects[1..], dy, overlaps);
      }
    }
  }

  /**
   * Rising into objects: the actor's top ends at the bottom of the LAST
   * object it overlapped, and its vertical velocity is negated once per
   * overlapped object; nothing else changes.
   */
  lemma {:induction false} ResolveRising(s: ActorState, objects: seq<Entity>, dy: real, overlaps: Overlap)
    requires dy < 0.0
    ensures var r := VerticalResolve(s, objects, dy, overlaps);
      r.1 != [] ==> r.0 == s.(rect := s.rect.(y := r.1[|r.1| - 1].box.Bottom()),
                              yVel := if |r.1| % 2 == 1 then -s.yVel else s.yVel)
    decreases |objects|
  {
    if objects != [] {
      var o := objects[0];
      if overlaps(s.MaskPose(), o) {
        var s' := Snap(s, o, dy);
        ResolveRising(s', objects[1..], dy, overlaps);
        ResolveNothing(s', objects[1..], dy, overlaps);
      } else {
        ResolveRising(s, objects[1..], dy, overlaps);
      }
    }
  }
}

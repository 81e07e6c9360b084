/**
 * Shared vocabulary of the per-frame simulation: axis-aligned boxes, the
 * tagged level entities, and the abstract pixel-mask overlap test.
 */
module Geometry {

  /** An axis-aligned rectangle: top-left corner and size (a pygame Rect). */
  datatype Box = Box(x: real, y: real, w: real, h: real) {
    function Left(): real { x }
    function Right(): real { x + w }
    function Top(): real { y }
    function Bottom(): real { y + h }
  }

  /** The four kinds of level object; the scans dispatch on this tag. */
  datatype Kind = Block | Fruit | Mob | Buff

  /**
   * A level object. `id` gives it an identity of its own, so that two
   * objects with the same kind and box are still different list entries,
   * as two Python objects are.
   */
  datatype Entity = Entity(id: nat, kind: Kind, box: Box)

  /**
   * What the mask test sees of an actor: its box and the sprite frame its
   * mask is built from (sheet name and frame index).
   */
  datatype Pose = Pose(box: Box, sheet: string, frame: nat)

  /**
   * The pixel-mask collision test between an actor and an object. It is a
   * parameter everywhere: the model says nothing about its results.
   */
  type Overlap = (Pose, Entity) -> bool

}

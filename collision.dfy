/** The collision detector: an inset player hitbox tested against each
    obstacle's full box, with strict inequalities on both axes.  The drone
    is tested at its fixed `y`; its bobbing only moves the drawing. */
module Collision {
  import opened Obstacles

  /** Margin taken off every side of the player's box before testing. */
  const HITBOX_INSET: real := 5.0

  datatype Rect = Rect(x: real, y: real, width: real, height: real)

  /** The player's box shrunk by the inset on every side. */
  function Hitbox(x: real, y: real, width: real, height: real): (r: Rect)
    ensures r.x + r.width == x + width - HITBOX_INSET && r.y + r.height == y + height - HITBOX_INSET
    ensures r.x == x + HITBOX_INSET && r.y == y + HITBOX_INSET
  {
    Rect(x + HITBOX_INSET, y + HITBOX_INSET, width - 2.0 * HITBOX_INSET, height - 2.0 * HITBOX_INSET)
  }

  /** The point lies strictly inside the box with top-left corner (`x`, `y`)
      and the given size. */
  predicate StrictlyInside(x: real, y: real, width: real, height: real, px: real, py: real)
  {
    x < px < x + width && y < py < y + height
  }

  function Max(a: real, b: real): real { if a < b then b else a }
  function Min(a: real, b: real): real { if a < b then a else b }

  /** Strict overlap of the hitbox and an obstacle on both axes: for boxes
      of positive size, exactly when the two share a point of their
      interiors (the centre of the overlap when they hit), so boxes that
      only touch along an edge do not hit. */
  predicate Hits(r: Rect, o: Obstacle): (b: bool)
    ensures b && r.width > 0.0 && r.height > 0.0 && o.width > 0.0 && o.height > 0.0 ==>
              var px := (Max(r.x, o.x) + Min(r.x + r.width, o.x + o.width)) / 2.0;
              var py := (Max(r.y, o.y) + Min(r.y + r.height, o.y + o.height)) / 2.0;
              StrictlyInside(r.x, r.y, r.width, r.height, px, py)
              && StrictlyInside(o.x, o.y, o.width, o.height, px, py)
    ensures (exists px, py :: StrictlyInside(r.x, r.y, r.width, r.height, px, py)
                              && StrictlyInside(o.x, o.y, o.width, o.height, px, py)) ==> b
  {
    r.x < o.x + o.width && r.x + r.width > o.x && r.y < o.y + o.height && r.y + r.height > o.y
  }

  /** Some live obstacle overlaps the hitbox. */
  predicate CollidesAny(r: Rect, obstacles: seq<Obstacle>): (b: bool)
    ensures b <==> exists o :: o in obstacles && Hits(r, o)
    ensures obstacles == [] ==> !b
  {
    exists i :: 0 <= i < |obstacles| && Hits(r, obstacles[i])
  }

  /** Boxes that are apart, or merely touch, on either axis never collide. */
  lemma SeparatedNeverCollides(r: Rect, obstacles: seq<Obstacle>)
    requires forall i :: 0 <= i < |obstacles| ==>
               r.x + r.width <= obstacles[i].x || obstacles[i].x + obstacles[i].width <= r.x
               || r.y + r.height <= obstacles[i].y || obstacles[i].y + obstacles[i].height <= r.y
    ensures !CollidesAny(r, obstacles)
  {
  }

  /** Collisions only depend on the obstacles present: adding obstacles can
      only add collisions, and a collision is one with some single obstacle. */
  lemma {:induction false} CollidesAnyAppend(r: Rect, a: seq<Obstacle>, b: seq<Obstacle>)
    ensures CollidesAny(r, a + b) <==> CollidesAny(r, a) || CollidesAny(r, b)
  {
    if CollidesAny(r, a + b) {
      var i :| 0 <= i < |a + b| && Hits(r, (a + b)[i]);
      if i < |a| {
        assert Hits(r, a[i]);
      } else {
        assert Hits(r, b[i - |a|]);
      }
    }
    if CollidesAny(r, a) {
      var i :| 0 <= i < |a| && Hits(r, a[i]);
      assert (a + b)[i] == a[i];
    }
    if CollidesAny(r, b) {
      var i :| 0 <= i < |b| && Hits(r, b[i]);
      assert (a + b)[|a| + i] == b[i];
    }
  }
}

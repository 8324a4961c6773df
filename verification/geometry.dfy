/** Points and axis-aligned bounding boxes as the rendering library keeps them. */
module Geometry {

  datatype Vec3 = Vec3(x: real, y: real, z: real) {

    function Plus(v: Vec3): Vec3 {
      Vec3(x + v.x, y + v.y, z + v.z)
    }

    function Minus(v: Vec3): (r: Vec3)
      ensures r.Plus(v) == this
    {
      Vec3(x - v.x, y - v.y, z - v.z)
    }
  }

  const Zero: Vec3 := Vec3(0.0, 0.0, 0.0)

  /** A box by its min and max corners. It is empty when on some axis the max
      corner lies below the min corner (a box built from an object without
      geometry is empty). */
  datatype Box3 = Box3(min: Vec3, max: Vec3) {

    predicate IsEmpty() {
      max.x < min.x || max.y < min.y || max.z < min.z
    }

    /** `p` lies in the box, boundary included. */
    predicate Contains(p: Vec3) {
      && min.x <= p.x <= max.x
      && min.y <= p.y <= max.y
      && min.z <= p.z <= max.z
    }

    /** Extent per axis; `SizeSpansBox` states what it measures. */
    function Size(): Vec3 {
      if IsEmpty() then Zero else max.Minus(min)
    }

    /** The midpoint of the box; `CenterIsMidpoint` states which point. */
    function Center(): Vec3 {
      if IsEmpty() then Zero
      else Vec3((min.x + max.x) * 0.5, (min.y + max.y) * 0.5, (min.z + max.z) * 0.5)
    }

    /** Both corners moved by `v`. */
    function Translate(v: Vec3): Box3 {
      Box3(min.Plus(v), max.Plus(v))
    }
  }

  // The facts below are lemmas rather than postconditions of the members
  // above, so that proofs about concrete boxes only unfold what they use.

  /** The size of an empty box is zero; that of any other box carries its
      min corner onto its max corner. Every extent is nonnegative. */
  lemma SizeSpansBox(b: Box3)
    ensures b.IsEmpty() ==> b.Size() == Zero
    ensures !b.IsEmpty() ==> b.min.Plus(b.Size()) == b.max
    ensures 0.0 <= b.Size().x && 0.0 <= b.Size().y && 0.0 <= b.Size().z
  {}

  /** The centre of an empty box is the origin; that of any other box lies
      in it, as far from the min corner as from the max corner. */
  lemma CenterIsMidpoint(b: Box3)
    ensures b.IsEmpty() ==> b.Center() == Zero
    ensures !b.IsEmpty() ==> b.Center().Minus(b.min) == b.max.Minus(b.Center())
    ensures !b.IsEmpty() ==> b.Contains(b.Center())
  {}

  /** Moving a box keeps its emptiness and its size, and moves the centre of
      a non-empty box by the same vector. */
  lemma TranslateKeepsShape(b: Box3, v: Vec3)
    ensures b.Translate(v).IsEmpty() == b.IsEmpty()
    ensures b.Translate(v).Size() == b.Size()
    ensures !b.IsEmpty() ==> b.Translate(v).Center() == b.Center().Plus(v)
  {}

  /** A box is empty exactly when it holds no point at all. */
  lemma EmptyIffNoPoints(b: Box3)
    ensures b.IsEmpty() <==> forall p :: !b.Contains(p)
  {
    if !b.IsEmpty() {
      assert b.Contains(b.min);
    }
  }

  /** `Math.max(size.x, size.y, size.z)`: the largest extent. */
  function MaxExtent(s: Vec3): (r: real)
    ensures s.x <= r && s.y <= r && s.z <= r
    ensures r == s.x || r == s.y || r == s.z
  {
    if s.x < s.y then (if s.y < s.z then s.z else s.y)
    else (if s.x < s.z then s.z else s.x)
  }
}

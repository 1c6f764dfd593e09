/** Euclidean distance between star-system coordinates. `Math.sqrt` is not
    modelled: it is a parameter, and only the laws below are required of it. */
module Geometry {

  datatype Coordinate = Coordinate(x: real, y: real, z: real)

  /** What the model relies on about `Math.sqrt`: the root of 0 is 0 and the
      root of a non-negative number is non-negative. */
  ghost predicate SqrtLaws(sqrt: real -> real) {
    sqrt(0.0) == 0.0 && forall v :: 0.0 <= v ==> 0.0 <= sqrt(v)
  }

  /** dx*dx + dy*dy + dz*dz. */
  function SquaredDistance(a: Coordinate, b: Coordinate): (s: real)
    ensures 0.0 <= s
    ensures a == b ==> s == 0.0
  {
    var dx := a.x - b.x;
    var dy := a.y - b.y;
    var dz := a.z - b.z;
    dx * dx + dy * dy + dz * dz
  }

  /** `calculateDistance(coord1, coord2)`. */
  function Distance(sqrt: real -> real, a: Coordinate, b: Coordinate): (d: real)
    ensures SqrtLaws(sqrt) ==> 0.0 <= d
    ensures SqrtLaws(sqrt) && a == b ==> d == 0.0
  {
    sqrt(SquaredDistance(a, b))
  }

  lemma DistanceSymmetric(sqrt: real -> real, a: Coordinate, b: Coordinate)
    ensures Distance(sqrt, a, b) == Distance(sqrt, b, a)
  {
    assert (a.x - b.x) * (a.x - b.x) == (b.x - a.x) * (b.x - a.x);
    assert (a.y - b.y) * (a.y - b.y) == (b.y - a.y) * (b.y - a.y);
    assert (a.z - b.z) * (a.z - b.z) == (b.z - a.z) * (b.z - a.z);
  }
}

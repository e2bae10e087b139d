/** `get_length`: the length of a path piece from its area and perimeter,
    over the reals. Both source files carry the same definition. */
module SegmentLength {
  import opened Geometry

  /** The radicand `perimeter² / 16 − area`. */
  function Discriminant(area: real, perimeter: real): real {
    perimeter * perimeter / 16.0 - area
  }

  /** `sqrt` yields the non-negative square root of `d`. */
  ghost predicate IsRootAt(sqrt: real -> real, d: real) {
    sqrt(d) >= 0.0 && sqrt(d) * sqrt(d) == d
  }

  function Max(x: real, y: real): real { if x >= y then x else y }

  /** A negative radicand is an error; otherwise the result is the longer side
      of the rectangle that has the given area and perimeter: it is at least a
      quarter of the perimeter, and with the other side `perimeter / 2 − r`
      it spans exactly `area`. */
  function GetLength(area: real, perimeter: real, sqrt: real -> real): (r: Result<real>)
    ensures r.Err? <==> Discriminant(area, perimeter) < 0.0
    ensures r.Err? ==> r.error == NegativeDiscriminant(area, perimeter)
    ensures r.Ok? && IsRootAt(sqrt, Discriminant(area, perimeter)) ==>
      r.value >= perimeter / 4.0 && r.value * (perimeter / 2.0 - r.value) == area
  {
    var d := Discriminant(area, perimeter);
    if d < 0.0 then Err(NegativeDiscriminant(area, perimeter))
    else
      var s := sqrt(d);
      assert (perimeter / 4.0 + s) * (perimeter / 2.0 - (perimeter / 4.0 + s))
        == perimeter * perimeter / 16.0 - s * s;
      Ok(perimeter / 4.0 + s)
  }

  /** The length of one polygon, measured by the engine. */
  function PieceLength(g: Engine, piece: Polygon): Result<real> {
    GetLength(g.area(piece), g.perimeter(piece), g.sqrt)
  }

  /** For an `l` by `w` rectangle the radicand is `((l − w) / 2)²`. */
  lemma RectangleDiscriminant(l: real, w: real)
    ensures Discriminant(l * w, 2.0 * (l + w)) == ((l - w) / 2.0) * ((l - w) / 2.0)
  {
  }

  /** For an `l` by `w` rectangle the length is the longer side, whichever it is. */
  lemma RectangleLength(l: real, w: real, sqrt: real -> real)
    requires IsRootAt(sqrt, ((l - w) / 2.0) * ((l - w) / 2.0))
    ensures GetLength(l * w, 2.0 * (l + w), sqrt) == Ok(Max(l, w))
  {
    RectangleDiscriminant(l, w);
    var h := (l - w) / 2.0;
    var a := if h >= 0.0 then h else -h;
    assert a * a == h * h == ((l - w) / 2.0) * ((l - w) / 2.0);
    RootUnique(sqrt(h * h), a);
  }

  lemma RootUnique(s: real, a: real)
    requires s >= 0.0 && a >= 0.0 && s * s == a * a
    ensures s == a
  {
    assert (s - a) * (s + a) == s * s - a * a;
    if s > a {
      PositiveProduct(s - a, s + a);
    } else if s < a {
      PositiveProduct(a - s, a + s);
    }
  }

  lemma PositiveProduct(x: real, y: real)
    requires x > 0.0 && y > 0.0
    ensures x * y > 0.0
  {
  }

  /** The unit square of the documentation example has length 1. */
  lemma UnitSquareLength(sqrt: real -> real)
    requires IsRootAt(sqrt, 0.0)
    ensures GetLength(1.0, 4.0, sqrt) == Ok(1.0)
  {
    RectangleLength(1.0, 1.0, sqrt);
  }
}

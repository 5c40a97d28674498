/** The `Point` type, `midPoint` and `reflection` of constexpr_test/main.cpp.
    Coordinates are C++ `double`s; here they are mathematical reals, so IEEE
    rounding is not modelled. */
module Geometry {

  /** The value a `Point` holds: its two coordinates. */
  datatype Coords = Coords(x: real, y: real)

  /** The coordinates of the midpoint of `a` and `b`. */
  function MidPointOf(a: Coords, b: Coords): (m: Coords)
    ensures m.x - a.x == b.x - m.x && m.y - a.y == b.y - m.y
  {
    Coords((a.x + b.x) / 2.0, (a.y + b.y) / 2.0)
  }

  /** The coordinates of the reflection of `c` through the origin. */
  function ReflectionOf(c: Coords): (r: Coords)
    ensures r.x + c.x == 0.0 && r.y + c.y == 0.0
  {
    Coords(-c.x, -c.y)
  }

  /** A two-coordinate point whose fields change in place through its setters. */
  class Point {
    var x: real
    var y: real

    /** `Point(xVal = 0, yVal = 0)`: stores both arguments, no validation. */
    constructor (xVal: real := 0.0, yVal: real := 0.0)
      ensures XValue() == xVal && YValue() == yVal
    {
      x := xVal;
      y := yVal;
    }

    /** `xValue()`: the stored `x`; a function, so it cannot change state. */
    function XValue(): (r: real)
      reads this
      ensures r == x
    {
      x
    }

    /** `yValue()`: the stored `y`; a function, so it cannot change state. */
    function YValue(): (r: real)
      reads this
      ensures r == y
    {
      y
    }

    /** Both coordinates at once. */
    function Value(): Coords
      reads this
    {
      Coords(XValue(), YValue())
    }

    method SetX(newX: real)
      modifies this
      ensures XValue() == newX && YValue() == old(YValue())
    {
      x := newX;
    }

    method SetY(newY: real)
      modifies this
      ensures YValue() == newY && XValue() == old(XValue())
    {
      y := newY;
    }
  }

  /** `midPoint(p1, p2)`: a new point averaging the coordinates; the inputs are
      only read. */
  method MidPoint(p1: Point, p2: Point) returns (r: Point)
    ensures fresh(r)
    ensures r.Value() == MidPointOf(p1.Value(), p2.Value())
  {
    r := new Point((p1.XValue() + p2.XValue()) / 2.0, (p1.YValue() + p2.YValue()) / 2.0);
  }

  /** `reflection(p)`: default-construct a local point, set each coordinate to
      the negated one of `p`, and return it; `p` is only read. */
  method Reflection(p: Point) returns (r: Point)
    ensures fresh(r)
    ensures r.Value() == ReflectionOf(p.Value())
  {
    r := new Point();
    r.SetX(-p.XValue());
    r.SetY(-p.YValue());
  }

  /** Averaging does not depend on the order of the two points. */
  lemma MidPointSymmetric(a: Coords, b: Coords)
    ensures MidPointOf(a, b) == MidPointOf(b, a)
  {
  }

  /** Reflecting twice gives back the original coordinates. */
  lemma ReflectionInvolutive(c: Coords)
    ensures ReflectionOf(ReflectionOf(c)) == c
  {
  }

  /** Each midpoint coordinate lies between the two input coordinates. */
  lemma MidPointBetween(a: Coords, b: Coords)
    ensures var m := MidPointOf(a, b);
      (a.x <= m.x <= b.x || b.x <= m.x <= a.x) && (a.y <= m.y <= b.y || b.y <= m.y <= a.y)
  {
  }

  /** The reflection of a midpoint is the midpoint of the reflections. */
  lemma ReflectionOfMidPoint(a: Coords, b: Coords)
    ensures ReflectionOf(MidPointOf(a, b)) == MidPointOf(ReflectionOf(a), ReflectionOf(b))
  {
  }

  /** The points `main` builds: the midpoint of (9.4, 27.7) and (28.8, 5.3),
      and its reflection. */
  method MainPoints() returns (mid: Point, reflectedMid: Point)
    ensures mid.Value() == Coords(19.1, 16.5)
    ensures reflectedMid.Value() == Coords(-19.1, -16.5)
  {
    var p1 := new Point(9.4, 27.7);
    var p2 := new Point(28.8, 5.3);
    mid := MidPoint(p1, p2);
    reflectedMid := Reflection(mid);
  }
}

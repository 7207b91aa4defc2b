/**
 * pygame's integer rectangle, and the quarter-turn abstraction of the image
 * transforms (scale, rotate, bounding rect) that a sprite's geometry goes through.
 */
module Geometry {

  /** A width and a height in pixels. */
  type Size = (nat, nat)

  /** A pixel position, or a pixel offset. */
  type Point = (int, int)

  /** pygame.Rect: top-left corner and size. */
  datatype Rect = Rect(x: int, y: int, w: nat, h: nat) {

    function Dims(): Size { (w, h) }

    /** Rect.center: the size is halved by integer division. */
    function Center(): Point { (x + w / 2, y + h / 2) }

    /** Assigning Rect.center keeps the size and moves the corner so that the centre reads back as `c`. */
    function WithCenter(c: Point): (r: Rect)
      ensures r.Dims() == Dims()
      ensures r.Center() == c
    {
      Rect(c.0 - w / 2, c.1 - h / 2, w, h)
    }

    /** Rect.move_ip: a translation; the size is kept and the centre moves by the same offset. */
    function Translated(d: Point): (r: Rect)
      ensures r.Dims() == Dims()
      ensures r.Center() == (Center().0 + d.0, Center().1 + d.1)
    {
      Rect(x + d.0, y + d.1, w, h)
    }
  }

  /** An angle, in degrees, that is a whole number of quarter turns. */
  predicate QuarterTurn(degrees: int) { degrees % 90 == 0 }

  /**
   * The size of an opaque `s`-sized image after pygame.transform.rotate by
   * `degrees`, which for a quarter-turn multiple is also its bounding rect:
   * unchanged on a half-turn multiple, width and height exchanged otherwise.
   * Only quarter-turn multiples are meant; sprites keep to them (Sprite.Wf).
   */
  function RotatedSize(s: Size, degrees: int): Size
  {
    if degrees % 180 == 0 then s else (s.1, s.0)
  }

  /** Rotation keeps the two side lengths, and exchanging them twice is no change. */
  lemma RotatedSizeKeepsSides(s: Size, degrees: int)
    ensures var r := RotatedSize(s, degrees); multiset{r.0, r.1} == multiset{s.0, s.1}
    ensures RotatedSize(RotatedSize(s, degrees), degrees) == s
  {
  }

  /** The remainder by 90 of a number given as a quotient and a remainder. */
  lemma RemainderBy90(x: int, m: int, r: int)
    requires 0 <= r < 90 && x == 90 * m + r
    ensures x % 90 == r
  {
  }

  /** The remainder by 180 of a number given as a quotient and a remainder. */
  lemma RemainderBy180(x: int, m: int, r: int)
    requires 0 <= r < 180 && x == 180 * m + r
    ensures x % 180 == r
  {
  }

  /** A quarter turn either way changes whether an angle is a half-turn multiple. */
  lemma QuarterParity(degrees: int)
    requires QuarterTurn(degrees)
    ensures QuarterTurn(degrees + 90) && QuarterTurn(degrees - 90) && QuarterTurn(degrees + 180)
    ensures (degrees + 90) % 180 == 0 <==> degrees % 180 != 0
    ensures (degrees - 90) % 180 == 0 <==> degrees % 180 != 0
    ensures (degrees + 180) % 180 == degrees % 180
  {
    var q := degrees / 90;
    assert degrees == 90 * q;
    RemainderBy90(degrees + 90, q + 1, 0);
    RemainderBy90(degrees - 90, q - 1, 0);
    RemainderBy90(degrees + 180, q + 2, 0);
    var m := q / 2;
    if q % 2 == 0 {
      assert q == 2 * m;
      RemainderBy180(degrees, m, 0);
      RemainderBy180(degrees + 90, m, 90);
      RemainderBy180(degrees - 90, m - 1, 90);
      RemainderBy180(degrees + 180, m + 1, 0);
    } else {
      assert q == 2 * m + 1;
      RemainderBy180(degrees, m, 90);
      RemainderBy180(degrees + 90, m + 1, 0);
      RemainderBy180(degrees - 90, m, 0);
      RemainderBy180(degrees + 180, m + 1, 90);
    }
  }

  /** A further quarter turn exchanges the sides of the rotated size; a half turn does not change it. */
  lemma RotatedSizeQuarterStep(s: Size, degrees: int)
    requires QuarterTurn(degrees)
    ensures RotatedSize(s, degrees + 90) == (RotatedSize(s, degrees).1, RotatedSize(s, degrees).0)
    ensures RotatedSize(s, degrees - 90) == (RotatedSize(s, degrees).1, RotatedSize(s, degrees).0)
    ensures RotatedSize(s, degrees + 180) == RotatedSize(s, degrees)
  {
    QuarterParity(degrees);
    var r := RotatedSize(s, degrees);
    if degrees % 180 == 0 {
      assert r == s;
      assert RotatedSize(s, degrees + 90) == (s.1, s.0);
      assert RotatedSize(s, degrees - 90) == (s.1, s.0);
    } else {
      assert r == (s.1, s.0);
      assert RotatedSize(s, degrees + 90) == s;
      assert RotatedSize(s, degrees - 90) == s;
    }
  }

  /**
   * recalcDimensions: the original image is scaled to `s`, rotated by
   * `degrees`, and the sprite's rect becomes the bounding rect of the result,
   * which pygame places at the origin.
   */
  function BoundingRect(s: Size, degrees: int): Rect
    requires QuarterTurn(degrees)
  {
    var t := RotatedSize(s, degrees);
    Rect(0, 0, t.0, t.1)
  }

  /**
   * A side length multiplied by a ratio and converted back to a whole number
   * of pixels, rounded down (the product is never negative).
   */
  function ScaleBy(n: nat, ratio: real): (m: nat)
    requires ratio >= 0.0
    ensures m as real <= n as real * ratio < m as real + 1.0
  {
    var p := n as real * ratio;
    assert p >= 0.0;
    p.Floor
  }
}

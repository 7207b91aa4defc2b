/**
 * The transform and interaction rules of one sprite, as functions of its
 * state: what each operation of Drawable and Card leaves behind, and the
 * properties that relate the operations to each other.
 */
module Sprite {
  import opened Options
  import opened Geometry

  /** Size of the card artwork the default display size is derived from. */
  const OriginalCardSize: Size := (363, 513)

  /** Display size of an untapped card at rest: the artwork halved, truncated. */
  const DefaultCardSize: Size := (OriginalCardSize.0 / 2, OriginalCardSize.1 / 2)

  /** Ratio by which highlighting enlarges a sprite. */
  const HighlightRatio: real := 2.0

  /**
   * What a sprite is, fixed when it is loaded: whether its exact type is
   * Card (the source tests `type(self) == Card`), and the bounding size of
   * its original image.
   */
  datatype Kind = Kind(isCard: bool, original: Size)

  /**
   * The state a sprite's methods update: its rect, its accumulated rotation
   * in degrees, whether it is highlit, and (for a Card) whether it is tapped.
   */
  datatype Pose = Pose(rect: Rect, rotation: int, highlit: bool, tapped: bool)

  /** The rotation the rect geometry is modelled for. */
  predicate Wf(p: Pose) { QuarterTurn(p.rotation) }

  /** A card that has only been turned by tap and untap: upright, or a quarter turn clockwise when tapped. */
  predicate Upright(p: Pose) { p.rotation == if p.tapped then -90 else 0 }

  /** A ratio the source passes: rescaling by a negative ratio would make pygame refuse the scale. */
  predicate RatioOk(size: Option<Size>, ratio: Option<real>) {
    size.None? && ratio.Some? ==> ratio.value >= 0.0
  }

  /** Drawable.__init__: the rect is the bounding rect of the loaded image, at the origin. */
  function Loaded(k: Kind): (p: Pose)
    ensures p.rotation == 0 && Wf(p) && !p.highlit && !p.tapped
    ensures p.rect.Dims() == k.original && p.rect.x == 0 && p.rect.y == 0
  {
    Pose(Rect(0, 0, k.original.0, k.original.1), 0, false, false)
  }

  /** Card.__init__: a loaded card, its scale reset. */
  function NewCard(original: Size): Pose
  {
    Reset(Kind(true, original), Loaded(Kind(true, original)))
  }

  /** Size a sprite's resetScale goes back to: the default card size for a Card, the original image's otherwise. */
  function RestSize(k: Kind): Size
  {
    if k.isCard then DefaultCardSize else k.original
  }

  /**
   * The rect a sprite ends with when its pre-rotation size is set to `s`:
   * the image is recomputed for `s` and the current rotation, and the centre
   * saved beforehand is put back.
   */
  function Resized(p: Pose, s: Size): (r: Rect)
    requires Wf(p)
    ensures r.Center() == p.rect.Center()
    ensures r.Dims() == RotatedSize(s, p.rotation)
  {
    BoundingRect(s, p.rotation).WithCenter(p.rect.Center())
  }

  /** resetScale (Drawable.resetScale, or Card.resetScale which overrides it). */
  function Reset(k: Kind, p: Pose): (q: Pose)
    requires Wf(p)
    ensures Wf(q)
    ensures q.rect.Center() == p.rect.Center()
    ensures q.rect.Dims() == RotatedSize(RestSize(k), p.rotation)
    ensures q.rotation == p.rotation && q.highlit == p.highlit && q.tapped == p.tapped
  {
    p.(rect := Resized(p, RestSize(k)))
  }

  /**
   * The pre-rotation size a ratio asks for: the current width and height
   * multiplied by it, taken in the order (height, width) on a tapped Card.
   */
  function RatioTarget(k: Kind, p: Pose, ratio: real): Size
    requires ratio >= 0.0
  {
    if k.isCard && p.tapped then (ScaleBy(p.rect.h, ratio), ScaleBy(p.rect.w, ratio))
    else (ScaleBy(p.rect.w, ratio), ScaleBy(p.rect.h, ratio))
  }

  /**
   * Drawable.rescale(size, scaleRatio): an absolute size wins over a ratio;
   * with neither, the sprite's resetScale. The centre is kept in every case.
   */
  function Rescaled(k: Kind, p: Pose, size: Option<Size>, ratio: Option<real>): (q: Pose)
    requires Wf(p) && RatioOk(size, ratio)
    ensures Wf(q)
    ensures q.rect.Center() == p.rect.Center()
    ensures q.rotation == p.rotation && q.highlit == p.highlit && q.tapped == p.tapped
  {
    match size
    case Some(s) => p.(rect := Resized(p, s))
    case None =>
      match ratio
      case Some(r) => p.(rect := Resized(p, RatioTarget(k, p, r)))
      case None => Reset(k, p)
  }

  /**
   * Drawable.rotate(angle): the rotation accumulates and the image is
   * recomputed from the current rect size at the new rotation, around the
   * same centre.
   */
  function Rotated(p: Pose, angle: int): (q: Pose)
    requires Wf(p) && QuarterTurn(angle)
    ensures Wf(q)
    ensures q.rotation == p.rotation + angle
    ensures q.rect.Center() == p.rect.Center()
    ensures q.rect.Dims() == RotatedSize(p.rect.Dims(), p.rotation + angle)
    ensures q.highlit == p.highlit && q.tapped == p.tapped
  {
    var turned := p.(rotation := p.rotation + angle);
    turned.(rect := Resized(turned, p.rect.Dims()))
  }

  /** Drawable.move(rel). */
  function Moved(p: Pose, d: Point): (q: Pose)
    ensures q.rect.Dims() == p.rect.Dims()
    ensures q.rect.Center() == (p.rect.Center().0 + d.0, p.rect.Center().1 + d.1)
    ensures q.rotation == p.rotation && q.highlit == p.highlit && q.tapped == p.tapped
  {
    p.(rect := p.rect.Translated(d))
  }

  /** Moving by an offset and then by its opposite is no move at all. */
  lemma MoveAndBack(p: Pose, d: Point)
    ensures Moved(Moved(p, d), (-d.0, -d.1)) == p
  {
  }

  /**
   * Drawable.highlight(on): a request for the state the sprite is already in
   * is read as "off"; on doubles the size by ratio, off resets the scale.
   */
  function Highlighted(k: Kind, p: Pose, on: bool): (q: Pose)
    requires Wf(p)
    ensures Wf(q)
    ensures q.highlit <==> on && !p.highlit
    ensures q.rect.Center() == p.rect.Center()
    ensures q.rotation == p.rotation && q.tapped == p.tapped
  {
    var effective := if p.highlit == on then false else on;
    if effective then Rescaled(k, p, None, Some(HighlightRatio)).(highlit := true)
    else Reset(k, p).(highlit := false)
  }

  /** Card.tap: a quarter turn clockwise, unless already tapped. */
  function Tapped(k: Kind, p: Pose): (q: Pose)
    requires Wf(p)
    ensures Wf(q) && q.tapped
    ensures q.rect.Center() == p.rect.Center()
    ensures q.rotation == if p.tapped then p.rotation else p.rotation - 90
    ensures q.highlit == p.highlit
  {
    if p.tapped then p else Rotated(p, -90).(tapped := true)
  }

  /**
   * Card.untap: unless not tapped, turn back a quarter, reset the scale and
   * put back the centre saved before both steps.
   */
  function Untapped(k: Kind, p: Pose): (q: Pose)
    requires Wf(p)
    ensures Wf(q) && !q.tapped
    ensures q.rect.Center() == p.rect.Center()
    ensures q.rotation == if p.tapped then p.rotation + 90 else p.rotation
    ensures p.tapped ==> q.rect.Dims() == RotatedSize(RestSize(k), p.rotation + 90)
    ensures q.highlit == p.highlit
  {
    if !p.tapped then p
    else
      var q := Reset(k, Rotated(p, 90));
      q.(rect := q.rect.WithCenter(p.rect.Center()), tapped := false)
  }

  /** Card.toggleTap. */
  function Toggled(k: Kind, p: Pose): (q: Pose)
    requires Wf(p)
    ensures Wf(q)
    ensures q.tapped == !p.tapped
    ensures q.rect.Center() == p.rect.Center()
  {
    if p.tapped then Untapped(k, p) else Tapped(k, p)
  }

  // ---------------------------------------------------------------------
  // Properties of resetScale and rescale

  /** The default card size is the artwork halved with truncation. */
  lemma DefaultCardSizeValue()
    ensures DefaultCardSize == (181, 256)
  {
  }

  /** A freshly constructed card: default size, untapped, unrotated, not highlit, centred where the image was. */
  lemma NewCardState(original: Size)
    ensures var p := NewCard(original);
      p.rect.Dims() == (181, 256) && !p.tapped && p.rotation == 0 && !p.highlit
      && p.rect.Center() == (original.0 / 2, original.1 / 2)
      && Wf(p) && Upright(p)
  {
  }

  /** A card's resetScale ends at the default size, exchanged while it is turned by an odd number of quarters. */
  lemma CardResetSize(k: Kind, p: Pose)
    requires k.isCard && Wf(p)
    ensures Reset(k, p).rect.Dims() == if p.rotation % 180 == 0 then (181, 256) else (256, 181)
  {
  }

  /** resetScale twice gives what resetScale once gives. */
  lemma ResetIdempotent(k: Kind, p: Pose)
    requires Wf(p)
    ensures Reset(k, Reset(k, p)) == Reset(k, p)
  {
  }

  /**
   * resetScale forgets every earlier rescale: only the centre, the rotation
   * and the flags, which rescale keeps, decide it. This is why grab followed
   * by drop leaves a card at its rest size.
   */
  lemma ResetAfterRescale(k: Kind, p: Pose, size: Option<Size>, ratio: Option<real>)
    requires Wf(p) && RatioOk(size, ratio)
    ensures Reset(k, Rescaled(k, p, size, ratio)) == Reset(k, p)
  {
  }

  /** An absolute size overrides whatever ratio comes with it. */
  lemma SizeOverridesRatio(k: Kind, p: Pose, s: Size, ratio: Option<real>)
    requires Wf(p)
    ensures Rescaled(k, p, Some(s), ratio) == Rescaled(k, p, Some(s), None)
    ensures Rescaled(k, p, Some(s), ratio).rect.Dims() == RotatedSize(s, p.rotation)
  {
  }

  /** rescale with neither a size nor a ratio is exactly resetScale. */
  lemma RescaleWithoutArguments(k: Kind, p: Pose)
    requires Wf(p)
    ensures Rescaled(k, p, None, None) == Reset(k, p)
  {
  }

  /**
   * A ratio scales the displayed width and height along their own axes
   * exactly when the tapped-card exchange matches the rotation (a tapped
   * Card turned an odd number of quarters, or anything else turned by
   * half-turns); otherwise the displayed sides come out exchanged.
   */
  lemma RatioScalesDisplayedAxes(k: Kind, p: Pose, ratio: real)
    requires Wf(p) && ratio >= 0.0
    ensures var d := Rescaled(k, p, None, Some(ratio)).rect.Dims();
      var w, h := ScaleBy(p.rect.w, ratio), ScaleBy(p.rect.h, ratio);
      d == if (k.isCard && p.tapped) == (p.rotation % 180 != 0) then (w, h) else (h, w)
  {
  }

  /** A card that keeps to tap and untap is scaled by a ratio along its displayed axes. */
  lemma UprightCardRatio(k: Kind, p: Pose, ratio: real)
    requires k.isCard && Upright(p) && ratio >= 0.0
    ensures Wf(p)
    ensures Rescaled(k, p, None, Some(ratio)).rect.Dims() == (ScaleBy(p.rect.w, ratio), ScaleBy(p.rect.h, ratio))
  {
    RatioScalesDisplayedAxes(k, p, ratio);
  }

  // ---------------------------------------------------------------------
  // Properties of rotate

  /** Rotations add up, and the centre stays where it was. */
  lemma RotationsAccumulate(p: Pose, a: int, b: int)
    requires Wf(p) && QuarterTurn(a) && QuarterTurn(b)
    ensures Rotated(Rotated(p, a), b).rotation == p.rotation + a + b
    ensures Rotated(Rotated(p, a), b).rect.Center() == p.rect.Center()
  {
  }

  /**
   * Turning back does not restore the rect: rotating rescales to the
   * already rotated size, so a quarter turn and its reverse leave the sides
   * exchanged (untap resets the scale for this reason).
   */
  lemma QuarterTurnAndBack(p: Pose)
    requires Wf(p)
    ensures Rotated(Rotated(p, -90), 90).rect.Dims() == (p.rect.h, p.rect.w)
  {
    QuarterParity(p.rotation);
  }

  // ---------------------------------------------------------------------
  // Properties of tap, untap and toggleTap

  /** tap on a tapped card, and untap on an untapped one, change nothing. */
  lemma TapSaturates(k: Kind, p: Pose)
    requires Wf(p)
    ensures Tapped(k, Tapped(k, p)) == Tapped(k, p)
    ensures Untapped(k, Untapped(k, p)) == Untapped(k, p)
    ensures p.tapped ==> Tapped(k, p) == p
    ensures !p.tapped ==> Untapped(k, p) == p
  {
  }

  /**
   * Tapping an untapped card that is upright exchanges its displayed sides;
   * turned by an odd number of quarters, the quarter turn back to a
   * half-turn multiple keeps them.
   */
  lemma TapTurnsRect(k: Kind, p: Pose)
    requires Wf(p) && !p.tapped
    ensures Tapped(k, p).rect.Dims() == if p.rotation % 180 == 0 then (p.rect.h, p.rect.w) else p.rect.Dims()
  {
    QuarterParity(p.rotation);
  }

  /**
   * tap then untap: the rotation is what it was, the centre is the same and
   * the size is the rest size, i.e. the result is that of resetScale.
   */
  lemma TapThenUntap(k: Kind, p: Pose)
    requires Wf(p) && !p.tapped
    ensures Untapped(k, Tapped(k, p)) == Reset(k, p)
  {
  }

  /** On a card at rest, tap then untap changes nothing at all. */
  lemma TapThenUntapAtRest(k: Kind, p: Pose)
    requires Wf(p) && !p.tapped && Reset(k, p) == p
    ensures Untapped(k, Tapped(k, p)) == p
  {
    TapThenUntap(k, p);
  }

  /** toggleTap twice on an untapped card is a tap and an untap. */
  lemma ToggleTwice(k: Kind, p: Pose)
    requires Wf(p) && !p.tapped
    ensures Toggled(k, Toggled(k, p)) == Reset(k, p)
  {
    TapThenUntap(k, p);
  }

  /** The worked case: a new card tapped to (256, 181) and then doubled by ratio is (512, 362). */
  lemma TappedCardDoubled(original: Size)
    ensures var k := Kind(true, original);
      var t := Tapped(k, NewCard(original));
      t.rect.Dims() == (256, 181)
      && Rescaled(k, t, None, Some(2.0)).rect.Dims() == (512, 362)
  {
    var k := Kind(true, original);
    var t := Tapped(k, NewCard(original));
    NewCardState(original);
    UprightCardRatio(k, t, 2.0);
  }

  // ---------------------------------------------------------------------
  // Properties of highlight

  /** A highlight request that does not take effect (off, or on when already on) resets the scale and switches the flag off. */
  lemma HighlightFlag(k: Kind, p: Pose, on: bool)
    requires Wf(p)
    ensures !(on && !p.highlit) ==> Highlighted(k, p, on) == Reset(k, p).(highlit := false)
  {
  }

  /**
   * Highlighting doubles the size through the ratio path; on a card turned
   * only by tap and untap, the displayed width and height are both doubled.
   */
  lemma HighlightOnDoubles(k: Kind, p: Pose)
    requires Wf(p) && !p.highlit
    ensures Highlighted(k, p, true) == Rescaled(k, p, None, Some(2.0)).(highlit := true)
    ensures k.isCard && Upright(p) ==> Highlighted(k, p, true).rect.Dims() == (2 * p.rect.w, 2 * p.rect.h)
  {
    if k.isCard && Upright(p) {
      UprightCardRatio(k, p, 2.0);
    }
  }

  /** highlight(True) twice brings the flag back to where it was. */
  lemma HighlightTwice(k: Kind, p: Pose)
    requires Wf(p)
    ensures Highlighted(k, Highlighted(k, p, true), true).highlit == p.highlit
    ensures !p.highlit ==> Highlighted(k, Highlighted(k, p, true), true) == Reset(k, p)
  {
    var once := Highlighted(k, p, true);
    if !p.highlit {
      assert once.highlit;
      ResetAfterRescale(k, p, None, Some(HighlightRatio));
    }
  }
}

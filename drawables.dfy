/**
 * The sprite objects of the card-game shell, updated in place: Drawable
 * (which also stands for its subclass Card, told apart by `kind.isCard`, as
 * the source tells them apart by `type(self) == Card`) and MousePointer,
 * which holds references to the cards it grabs and highlights.
 * Each Drawable operation ends in the Sprite function of its old state
 * (RecalcDimensions states its new rect directly); the MousePointer methods
 * state the pointer's own fields directly and give each card they touch the
 * Sprite function of its old state.
 */
module Drawables {
  import opened Options
  import opened Geometry
  import opened Sprite

  class Drawable {
    /** Card or plain Drawable, and the bounding size of the original image. */
    const kind: Kind
    var rect: Rect
    /** Accumulated rotation in degrees. */
    var rotation: int
    var highlit: bool
    /** Card.is_tapped; stays false on a plain Drawable. */
    var isTapped: bool

    /** The sprite's state as a value. */
    function State(): Pose
      reads this
    {
      Pose(rect, rotation, highlit, isTapped)
    }

    ghost predicate Valid()
      reads this
    {
      Wf(State())
    }

    /** Drawable.__init__, for an image whose bounding rect has size `original`. */
    constructor (original: Size)
      ensures kind == Kind(false, original)
      ensures Valid() && State() == Loaded(kind)
    {
      kind := Kind(false, original);
      rect := Rect(0, 0, original.0, original.1);
      rotation := 0;
      highlit := false;
      isTapped := false;
    }

    /** Card.__init__: load, not tapped, then resetScale. */
    constructor Card(original: Size)
      ensures kind == Kind(true, original)
      ensures Valid() && State() == NewCard(original)
    {
      kind := Kind(true, original);
      rect := Rect(0, 0, original.0, original.1);
      rotation := 0;
      highlit := false;
      isTapped := false;
      new;
      ResetScale();
    }

    /** Drawable.move. */
    method Move(rel: Point)
      modifies this
      ensures State() == Moved(old(State()), rel)
    {
      rect := rect.Translated(rel);
    }

    /** Drawable.resetScale, extended by Card.resetScale for a card. */
    method ResetScale()
      requires Valid()
      modifies this
      decreases 1
      ensures Valid() && State() == Reset(kind, old(State()))
    {
      Rescale(Some(kind.original), None);
      if kind.isCard {
        Rescale(Some(DefaultCardSize), None);
      }
    }

    /** Drawable.rescale: the centre is saved, the size set, the image recomputed and the centre restored. */
    method Rescale(size: Option<Size>, ratio: Option<real>)
      requires Valid() && RatioOk(size, ratio)
      modifies this
      decreases if size.None? && ratio.None? then 2 else 0
      ensures Valid() && State() == Rescaled(kind, old(State()), size, ratio)
    {
      var center := rect.Center();
      if size.Some? {
        rect := rect.(w := size.value.0, h := size.value.1);
      } else if ratio.Some? {
        var r := ratio.value;
        var target := (ScaleBy(rect.w, r), ScaleBy(rect.h, r));
        if kind.isCard {
          if isTapped {
            target := (ScaleBy(rect.h, r), ScaleBy(rect.w, r));
          }
        }
        rect := rect.(w := target.0, h := target.1);
      } else {
        ResetScale();
        return;
      }
      RecalcDimensions();
      rect := rect.WithCenter(center);
    }

    /** Drawable.rotate. */
    method Rotate(angle: int)
      requires Valid() && QuarterTurn(angle)
      modifies this
      ensures Valid() && State() == Rotated(old(State()), angle)
    {
      var center := rect.Center();
      rotation := rotation + angle;
      RecalcDimensions();
      rect := rect.WithCenter(center);
    }

    /** Drawable.recalcDimensions: the rect becomes the bounding rect of the scaled, rotated image. */
    method RecalcDimensions()
      requires Valid()
      modifies this
      ensures Valid()
      ensures rect == BoundingRect(old(rect).Dims(), rotation)
      ensures rotation == old(rotation) && highlit == old(highlit) && isTapped == old(isTapped)
    {
      rect := BoundingRect(rect.Dims(), rotation);
    }

    /** Drawable.highlight. */
    method Highlight(on: bool)
      requires Valid()
      modifies this
      ensures Valid() && State() == Highlighted(kind, old(State()), on)
    {
      var effective := on;
      if highlit == on {
        effective := false;
      }
      if effective {
        Rescale(None, Some(HighlightRatio));
      } else {
        ResetScale();
      }
      highlit := effective;
    }

    /** Card.tap. */
    method Tap()
      requires Valid() && kind.isCard
      modifies this
      ensures Valid() && State() == Tapped(kind, old(State()))
    {
      if !isTapped {
        Rotate(-90);
        isTapped := true;
      }
    }

    /** Card.untap. */
    method Untap()
      requires Valid() && kind.isCard
      modifies this
      ensures Valid() && State() == Untapped(kind, old(State()))
    {
      if isTapped {
        var center := rect.Center();
        Rotate(90);
        ResetScale();
        rect := rect.WithCenter(center);
        isTapped := false;
      }
    }

    /** Card.toggleTap. */
    method ToggleTap()
      requires Valid() && kind.isCard
      modifies this
      ensures Valid() && State() == Toggled(kind, old(State()))
    {
      if isTapped {
        Untap();
      } else {
        Tap();
      }
    }
  }

  /** Ratio by which a grabbed card is enlarged while it is dragged. */
  const GrabRatio: real := 1.1

  /** Offset from the mouse position to the pointer sprite's top-left corner. */
  const PointerOffset: int := 10

  /**
   * MousePointer: the sprite it drags, the sprite it highlights (either may
   * be absent, and both may be the same card) and its own top-left corner.
   */
  class MousePointer {
    var grabbed: Drawable?
    var highlit: Drawable?
    var topLeft: Point

    /** MousePointer.__init__; where its own image puts the corner is given. */
    constructor (corner: Point)
      ensures grabbed == null && highlit == null && topLeft == corner
    {
      grabbed := null;
      highlit := null;
      topLeft := corner;
    }

    /**
     * MousePointer.grab: only a Card is taken. It becomes the grabbed sprite,
     * loses the pointer's highlight if it had it, and is enlarged by the grab
     * ratio; a card grabbed before is left as it is.
     */
    method Grab(item: Drawable?)
      requires item != null ==> item.Valid()
      modifies this, item
      ensures item == null || !item.kind.isCard ==> unchanged(this) && (item != null ==> unchanged(item))
      ensures item != null && item.kind.isCard ==>
        grabbed == item && topLeft == old(topLeft) && item.Valid()
        && highlit == (if old(highlit) == item then null else old(highlit))
        && item.State() == Rescaled(item.kind,
                                    if old(highlit) == item then Highlighted(item.kind, old(item.State()), false)
                                    else old(item.State()),
                                    None, Some(GrabRatio))
      ensures old(grabbed) != null && old(grabbed) != item ==> unchanged(old(grabbed))
    {
      if item != null && item.kind.isCard {
        grabbed := item;
        if grabbed == highlit {
          Highlight(null);
        }
        item.Rescale(None, Some(GrabRatio));
      }
    }

    /** MousePointer.drop: a grabbed card goes back to its rest size and is let go. */
    method Drop()
      requires grabbed != null ==> grabbed.Valid()
      modifies this, grabbed
      ensures grabbed == null && highlit == old(highlit) && topLeft == old(topLeft)
      ensures old(grabbed) != null && old(grabbed).kind.isCard ==>
        old(grabbed).Valid() && old(grabbed).State() == Reset(old(grabbed).kind, old(grabbed.State()))
      ensures old(grabbed) != null && !old(grabbed).kind.isCard ==> unchanged(old(grabbed))
    {
      if grabbed != null {
        if grabbed.kind.isCard {
          grabbed.ResetScale();
        }
        grabbed := null;
      }
    }

    /** MousePointer.move: the pointer follows the mouse and the grabbed sprite, if any, moves by `rel`. */
    method Move(pos: Point, rel: Point)
      modifies this, grabbed
      ensures topLeft == (pos.0 - PointerOffset, pos.1 - PointerOffset)
      ensures grabbed == old(grabbed) && highlit == old(highlit)
      ensures grabbed != null ==> grabbed.State() == Moved(old(grabbed.State()), rel)
    {
      topLeft := (pos.0 - PointerOffset, pos.1 - PointerOffset);
      if grabbed != null {
        grabbed.Move(rel);
      }
    }

    /**
     * MousePointer.highlight: with no item, the previous target is switched
     * off and forgotten; with an item, it is recorded and asked to highlight,
     * and the previous target is not touched.
     */
    method Highlight(item: Drawable?)
      requires item != null ==> item.Valid()
      requires item == null && highlit != null ==> highlit.Valid()
      modifies this, highlit, item
      ensures highlit == item && grabbed == old(grabbed) && topLeft == old(topLeft)
      ensures item == null && old(highlit) != null ==>
        old(highlit).Valid()
        && old(highlit).State() == Highlighted(old(highlit).kind, old(highlit.State()), false)
      ensures item != null ==> item.Valid() && item.State() == Highlighted(item.kind, old(item.State()), true)
      ensures item != null && old(highlit) != null && old(highlit) != item ==> unchanged(old(highlit))
    {
      if highlit != null && item == null {
        highlit.Highlight(false);
      }
      highlit := item;
      if item != null {
        item.Highlight(true);
      }
    }
  }
}

# Card sprites of a pygame card-game shell, in Dafny

This project models the sprite transform and interaction rules of a small
pygame card-game shell (`Drawables.py`). The model covers three things.
A `Drawable` is an integer rect with an accumulated rotation and a highlight flag.
A `Card` adds a tapped flag and a fixed default display size.
A `MousePointer` grabs, drags, drops and highlights cards.
The model then proves how the operations fit together.
The centre is kept pixel-exact by rescale, rotate and untap.
Tap and untap saturate, and highlight cancels itself when re-requested.
A tapped card's ratio rescale exchanges width and height, which exactly offsets the image rotation.
resetScale is idempotent and forgets every earlier rescale.
After any sequence of card operations, a card is either upright or tapped by exactly one quarter turn.

## Files

- `geometry.dfy`, module `Geometry`: pygame's `Rect` (the centre uses integer halving, and assigning the centre reads back exactly). It also holds the quarter-turn abstraction of `pygame.transform.scale`/`rotate`/`get_bounding_rect`, and the conversion of a ratio product back to pixels.
- `sprite.dfy`, module `Sprite`: the state of one sprite as a value (`Pose`) and one function per operation, giving the state it leaves behind. It also holds the lemmas that relate the operations.
- `drawables.dfy`, module `Drawables`: the classes. `Drawable` (with `kind.isCard` standing for the source's `type(self) == Card` test) and `MousePointer` update their fields in place. Each Drawable operation's `ensures` says its new state is the `Sprite` function of the old state (`RecalcDimensions` states its new rect directly). The MousePointer methods state the pointer's own fields directly, and give each card they touch the `Sprite` function of its old state.
- `traces.dfy`, module `Traces`: sequences of card operations, with the invariants that hold after any of them.
- `options.dfy`, module `Options`: the optional arguments `size=None`, `scaleRatio=None`.

Design decisions:
- Card is not a separate class (Dafny has no class inheritance without traits). Instead, one class `Drawable` carries `const kind: Kind(isCard, original)`. The overridden `resetScale` dispatches on `kind.isCard`, as does the type test inside `rescale`.
- `recalcDimensions` scales the original image to the *current* rect size, rotates it by the *total* rotation, and takes the bounding rect at the origin. For an opaque image turned by whole quarter turns, that bounding box is the scaled size, with its sides exchanged on an odd number of quarters (`Geometry.RotatedSize`). The lemma `Sprite.QuarterTurnAndBack` shows a consequence: rotating and rotating back leaves the sides exchanged, which is why `untap` resets the scale.
- Rotation is an `int` in degrees (the source starts it at the float 0.0, but cards only ever add ±90). Sprites are modelled for quarter turns only (`Sprite.Wf`).
- A ratio is a `real`. The product is rounded down to whole pixels.

What the code does that a reader might not expect (the model follows the code):
- `MousePointer.highlight(B)` does not switch off the card highlighted before. Only `highlight(None)` switches the previous target off (Drawables.py:164-170). Two cards can therefore both be highlit.
- `highlight(True)` twice returns the flag to where it started. It ends switched off at rest size only when the sprite started not highlit.
- `untap` resets the size but keeps the highlight flag.
- `grab` does not reset a card grabbed before.

## Model

| member | source | states |
|---|---|---|
| Geometry.Rect.WithCenter | Drawables.py:69 | assigning the centre keeps the size, and the centre then reads back exactly as assigned |
| Geometry.Rect.Translated | Drawables.py:36-37 | `move_ip` keeps the size and moves the centre by exactly the offset |
| Geometry.RotatedSize | Drawables.py:79-82 | the bounding size of an opaque image scaled to a size and rotated by quarter turns: the size itself at half-turn multiples, its sides exchanged otherwise; its properties are stated by Geometry.RotatedSizeKeepsSides and Geometry.RotatedSizeQuarterStep |
| Geometry.RotatedSizeKeepsSides | Drawables.py:79-82 | a quarter-turn rotation keeps the two side lengths, and applying the same rotation's exchange twice restores the size |
| Geometry.RotatedSizeQuarterStep | Drawables.py:79-82 | one more quarter turn either way exchanges the displayed sides, and a half turn does not change them |
| Geometry.BoundingRect | Drawables.py:82 | the rect recalcDimensions assigns: at the origin, with the rotated size; stated through Drawables.Drawable.RecalcDimensions, Sprite.Resized and Sprite.Rotated |
| Geometry.QuarterParity | Drawables.py:71-75 | a quarter turn either way changes whether the rotation is a half-turn multiple |
| Geometry.ScaleBy | Drawables.py:56 | a side times a ratio, rounded down to whole pixels: never above the exact product and less than one pixel below it |
| Sprite.Loaded | Drawables.py:27-34 | a loaded sprite has the bounding rect of its image at the origin, rotation 0, and is neither highlit nor tapped |
| Sprite.NewCard | Drawables.py:101-104 | Card.__init__ as a value: the loaded card, untapped, after resetScale; its state is stated by Sprite.NewCardState |
| Sprite.Resized | Drawables.py:50-69 | setting the pre-rotation size keeps the saved centre, and the size becomes the rotated requested size |
| Sprite.Reset | Drawables.py:106-108 | resetScale keeps the centre, rotation and flags, and sets the size to the rotated rest size (the default card size for a Card, the original image size otherwise, Drawables.py:45-46) |
| Sprite.RestSize | Drawables.py:45-46 | the size resetScale returns to: the default card size for a Card (Card.resetScale, Drawables.py:106-108), the original image size otherwise; stated through Sprite.Reset and Sprite.CardResetSize |
| Sprite.RatioTarget | Drawables.py:56-61 | the pre-rotation size a ratio asks for: (⌊w·r⌋, ⌊h·r⌋), or (⌊h·r⌋, ⌊w·r⌋) on a tapped Card; its displayed effect is stated through Sprite.RatioScalesDisplayedAxes and Sprite.UprightCardRatio |
| Sprite.Rescaled | Drawables.py:50-69 | rescale keeps the centre, the rotation and both flags, whichever argument is given |
| Sprite.Rotated | Drawables.py:71-75 | rotate adds the angle, keeps the centre and flags, and recomputes the size from the current size at the new rotation |
| Sprite.Moved | Drawables.py:36-37 | move shifts the centre by the offset and changes nothing else |
| Sprite.MoveAndBack | Drawables.py:36-37 | a move followed by the opposite move restores the state exactly |
| Sprite.Highlighted | Drawables.py:84-92 | afterwards the flag is on exactly when on was requested and the sprite was not already highlit; the centre, rotation and tapped flag are kept |
| Sprite.Tapped | Drawables.py:110-113 | after tap the card is tapped; the rotation goes down by 90 unless it was already tapped; the centre and highlight are kept |
| Sprite.Untapped | Drawables.py:115-121 | after untap the card is untapped; the rotation goes up by 90 unless it was not tapped; a tapped card ends at its rest size at the new rotation (the default card size for a Card), whatever was done to it while tapped; the centre saved first is kept |
| Sprite.Toggled | Drawables.py:123-127 | toggleTap always flips the tapped flag and keeps the centre |
| Sprite.DefaultCardSizeValue | Drawables.py:95-96 | the default card size, (363/2, 513/2) truncated, is (181, 256) |
| Sprite.NewCardState | Drawables.py:101-104 | a new card is (181, 256), untapped, unrotated and not highlit, centred on its image's centre |
| Sprite.CardResetSize | Drawables.py:106-108 | a card's resetScale ends at (181, 256), or at (256, 181) when the card is turned by an odd number of quarters |
| Sprite.ResetIdempotent | Drawables.py:106-108 | resetScale twice gives the same state as once |
| Sprite.ResetAfterRescale | Drawables.py:45-69 | resetScale after any rescale gives the same state as resetScale alone (so grab then drop ends at rest size) |
| Sprite.SizeOverridesRatio | Drawables.py:48-53 | an absolute size makes the ratio irrelevant, and the size becomes the rotated requested size |
| Sprite.RescaleWithoutArguments | Drawables.py:64-66 | rescale with neither a size nor a ratio is exactly resetScale |
| Sprite.RatioScalesDisplayedAxes | Drawables.py:56-63 | a ratio scales the displayed width and height along their own axes if and only if the tapped-card exchange matches the rotation's parity; otherwise the sides come out exchanged |
| Sprite.UprightCardRatio | Drawables.py:58-61 | on a card turned only by tap and untap, a ratio scales the displayed width and height along their own axes |
| Sprite.RotationsAccumulate | Drawables.py:71-75 | two rotations add up and keep the centre |
| Sprite.QuarterTurnAndBack | Drawables.py:71-82 | rotating by -90 and then by +90 leaves the sides exchanged |
| Sprite.TapSaturates | Drawables.py:110-121 | tap on a tapped card and untap on an untapped card change nothing, so each is idempotent |
| Sprite.TapTurnsRect | Drawables.py:110-113 | tapping an untapped card exchanges its displayed sides when it is at a half-turn multiple, and keeps them otherwise |
| Sprite.TapThenUntap | Drawables.py:110-121 | tap then untap on an untapped card gives the rotation back, keeps the centre and ends at rest size, i.e. equals resetScale |
| Sprite.TapThenUntapAtRest | Drawables.py:110-121 | tap then untap on a card at rest size restores it exactly |
| Sprite.ToggleTwice | Drawables.py:123-127 | toggleTap twice on an untapped card equals resetScale |
| Sprite.TappedCardDoubled | Drawables.py:59-61 | a new card tapped is (256, 181), and rescaled by 2.0 it is (512, 362) |
| Sprite.HighlightFlag | Drawables.py:84-92 | a request that does not take effect (off, or on when already highlit) is exactly resetScale with the flag switched off |
| Sprite.HighlightOnDoubles | Drawables.py:88-89 | switching the highlight on is a rescale by 2.0 with the flag set; on a card turned only by tap and untap it doubles the displayed width and height |
| Sprite.HighlightTwice | Drawables.py:84-92 | highlight(True) twice restores the flag; from not highlit it ends exactly at resetScale |
| Drawables.Drawable.constructor | Drawables.py:27-34 | a new plain sprite is in the loaded state |
| Drawables.Drawable.Card | Drawables.py:101-104 | a new card is the loaded card after resetScale |
| Drawables.Drawable.Move | Drawables.py:36-37 | the new state is the move of the old one |
| Drawables.Drawable.ResetScale | Drawables.py:106-108 | the two-step resetScale (original size, then default card size on a Card, Drawables.py:45-46) lands on the Sprite.Reset state |
| Drawables.Drawable.Rescale | Drawables.py:50-69 | saving the centre, setting the size, recomputing and restoring the centre lands on the Sprite.Rescaled state |
| Drawables.Drawable.Rotate | Drawables.py:71-75 | the new state is the Sprite.Rotated state |
| Drawables.Drawable.RecalcDimensions | Drawables.py:79-82 | the rect becomes the bounding rect of the current size at the current rotation, and nothing else changes |
| Drawables.Drawable.Highlight | Drawables.py:84-92 | the new state is the Sprite.Highlighted state |
| Drawables.Drawable.Tap | Drawables.py:110-113 | the new state is the Sprite.Tapped state |
| Drawables.Drawable.Untap | Drawables.py:115-121 | the new state is the Sprite.Untapped state |
| Drawables.Drawable.ToggleTap | Drawables.py:123-127 | the new state is the Sprite.Toggled state |
| Drawables.MousePointer.constructor | Drawables.py:135-140 | a new pointer holds no grabbed and no highlit reference |
| Drawables.MousePointer.Grab | Drawables.py:142-148 | a non-Card changes nothing; a Card becomes the grabbed sprite, loses the pointer's highlight (switched off) if it had it, and is rescaled by 1.1; a card grabbed before is untouched |
| Drawables.MousePointer.Drop | Drawables.py:150-156 | with nothing grabbed nothing changes; otherwise the card is reset to rest size and the grabbed reference is cleared |
| Drawables.MousePointer.Move | Drawables.py:158-162 | the pointer's corner is the position minus (10, 10); only the grabbed sprite moves, by exactly the offset |
| Drawables.MousePointer.Highlight | Drawables.py:164-170 | the highlit reference becomes the item; with no item the previous target is switched off; with an item it is asked on and the previous target is untouched |
| Traces.Apply | Drawables.py:36-127 | each card operation keeps the rotation a quarter-turn multiple |
| Traces.ApplyKeepsUpright | Drawables.py:36-127 | each card operation keeps a card upright or tapped by exactly -90, and moves its centre only if it is a move |
| Traces.RunKeepsUpright | Drawables.py:36-127 | after any sequence of card operations the card is upright (untapped, rotation 0) or tapped at -90, and its centre has moved by exactly the sum of the moves |
| Traces.NewCardAfterAnyCalls | Drawables.py:101-127 | after any operations a new card's resetScale gives (181, 256) or, when tapped, (256, 181); its centre is the image centre plus the moves; and a ratio scales it along its displayed axes |

## Left out

- Geometry.ScaleBy: the source multiplies by a Python float, and pygame converts the result to whole pixels. The model takes the exact real product, rounded down. This agrees with truncation for the ratios used (2.0, 1.1), but pygame's rounding is library-defined, so the model's rule is an assumption.
- Sprite.Rescaled: a negative ratio is excluded (`RatioOk`). pygame refuses to scale an image to a negative size, so the source raises there.
- Drawables.Drawable.Rescale: the same negative-ratio exclusion, for the same reason.
- Drawables.Drawable.Rotate: only quarter-turn angles are modelled. A bounding box at any other angle depends on pygame's pixel rotation. Cards only turn by ±90.
- The pixels themselves are not modelled: the `image` and `originalImage` surfaces, `pygame.transform.scale`/`rotate`, `get_bounding_rect`. They appear only through their effect on the rect size, assuming an opaque image (its bounding rect is the whole image).
- `loadImage`, `draw` and `update` are not modelled. They do image file I/O, blitting and event pumping; a sprite is given the size of its loaded image instead.
- Drawables.MousePointer.constructor: the pointer's own geometry is not modelled. Its first corner is a parameter. The pointer's image turns by -135 degrees and scales by 0.1, and its overridden `recalcDimensions` never updates its rect (Drawables.py:137-138, 172-174).
- `InfoPanel` and `CardPreview` are not modelled. `InfoPanel.__init__` only stores its dictionary and returns an object never set up as a sprite (no image or rect), and `CardPreview.__init__` raises because it calls `InfoPanel.__init__` without its argument (Drawables.py:177-186).
- Integer width is not modelled: pygame's `Rect` fields are C `int`s, while the model's coordinates and sizes are unbounded. The sizes stay small here, because highlighting toggles and every grab is followed by a drop that resets the scale.
- `Card.flip` is not modelled: it is an empty stub.
- `RadicalGame.py` is not part of this model: window setup, fullscreen toggling, the frame loop and its FPS counter over the wall clock, event polling and rendering. `Traces` stands in for the sequence of calls the loop makes on a card.
- `main.py` is not part of this model: it only wraps the game in exception handling and prints timestamps.

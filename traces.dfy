/**
 * Any sequence of the operations a card is driven by (move, rescale,
 * resetScale, highlight, tap, untap, toggleTap), and what holds after all
 * of them: a card stays upright or tapped by exactly a quarter turn, its
 * centre moves only by the moves, and rescaling by a ratio keeps working
 * along its displayed axes.
 */
module Traces {
  import opened Options
  import opened Geometry
  import opened Sprite

  /** One call made on a card. */
  datatype CardOp =
    | Move(rel: Point)
    | Rescale(size: Option<Size>, ratio: Option<real>)
    | ResetScale
    | Highlight(on: bool)
    | Tap
    | Untap
    | ToggleTap

  /** The calls the source makes: no negative ratio. */
  predicate Permitted(op: CardOp) {
    op.Rescale? ==> RatioOk(op.size, op.ratio)
  }

  predicate AllPermitted(ops: seq<CardOp>) {
    forall i :: 0 <= i < |ops| ==> Permitted(ops[i])
  }

  /** The state a card is in after one call. */
  function Apply(k: Kind, p: Pose, op: CardOp): (q: Pose)
    requires Wf(p) && Permitted(op)
    ensures Wf(q)
  {
    match op
    case Move(rel) => Moved(p, rel)
    case Rescale(size, ratio) => Rescaled(k, p, size, ratio)
    case ResetScale => Reset(k, p)
    case Highlight(on) => Highlighted(k, p, on)
    case Tap => Tapped(k, p)
    case Untap => Untapped(k, p)
    case ToggleTap => Toggled(k, p)
  }

  /** The state a card is in after the calls, in order. */
  function Run(k: Kind, p: Pose, ops: seq<CardOp>): (q: Pose)
    requires Wf(p) && AllPermitted(ops)
    ensures Wf(q)
    decreases |ops|
  {
    if ops == [] then p
    else
      assert Permitted(ops[0]);
      Run(k, Apply(k, p, ops[0]), ops[1..])
  }

  /** The total offset of the moves among the calls. */
  function Shift(ops: seq<CardOp>): Point
    decreases |ops|
  {
    if ops == [] then (0, 0)
    else
      var rest := Shift(ops[1..]);
      match ops[0]
      case Move(rel) => (rel.0 + rest.0, rel.1 + rest.1)
      case _ => rest
  }

  /** One call keeps a card upright-or-tapped, and moves its centre only if it is a move. */
  lemma ApplyKeepsUpright(k: Kind, p: Pose, op: CardOp)
    requires k.isCard && Upright(p) && Permitted(op)
    ensures Wf(p)
    ensures Upright(Apply(k, p, op))
    ensures Apply(k, p, op).rect.Center() == (p.rect.Center().0 + Shift([op]).0, p.rect.Center().1 + Shift([op]).1)
  {
  }

  /**
   * After any calls, a card is still upright or tapped by exactly a quarter
   * turn, and its centre has moved by exactly the sum of the moves.
   */
  lemma {:induction false} RunKeepsUpright(k: Kind, p: Pose, ops: seq<CardOp>)
    requires k.isCard && Upright(p) && AllPermitted(ops)
    ensures Wf(p)
    ensures Upright(Run(k, p, ops))
    ensures Run(k, p, ops).rect.Center() == (p.rect.Center().0 + Shift(ops).0, p.rect.Center().1 + Shift(ops).1)
    decreases |ops|
  {
    if ops != [] {
      var op := ops[0];
      assert Permitted(op);
      ApplyKeepsUpright(k, p, op);
      var next := Apply(k, p, op);
      assert AllPermitted(ops[1..]) by {
        forall i | 0 <= i < |ops[1..]| ensures Permitted(ops[1..][i]) {
          assert ops[1..][i] == ops[i + 1];
        }
      }
      RunKeepsUpright(k, next, ops[1..]);
      assert Run(k, p, ops) == Run(k, next, ops[1..]);
      assert Shift(ops).0 == Shift([op]).0 + Shift(ops[1..]).0;
      assert Shift(ops).1 == Shift([op]).1 + Shift(ops[1..]).1;
    }
  }

  /**
   * A new card, after any calls: its centre is where the image was centred
   * plus the moves, resetScale brings it to the default size in its current
   * orientation, and a ratio scales its displayed width and height.
   */
  lemma NewCardAfterAnyCalls(original: Size, ops: seq<CardOp>, ratio: real)
    requires AllPermitted(ops) && ratio >= 0.0
    ensures var k := Kind(true, original);
      var q := Run(k, NewCard(original), ops);
      Upright(q)
      && q.rect.Center() == (original.0 / 2 + Shift(ops).0, original.1 / 2 + Shift(ops).1)
      && Reset(k, q).rect.Dims() == (if q.tapped then (256, 181) else (181, 256))
      && Rescaled(k, q, None, Some(ratio)).rect.Dims() == (ScaleBy(q.rect.w, ratio), ScaleBy(q.rect.h, ratio))
  {
    var k := Kind(true, original);
    NewCardState(original);
    RunKeepsUpright(k, NewCard(original), ops);
    var q := Run(k, NewCard(original), ops);
    CardResetSize(k, q);
    UprightCardRatio(k, q, ratio);
  }
}

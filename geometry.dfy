/** The rectangles and the per-frame distances of PacButton.kt's layout. */
module Geometry {
  import opened Extensions

  /** An axis-aligned rectangle (Android's `RectF`), y growing downwards. */
  datatype Rect = Rect(left: real, top: real, right: real, bottom: real) {

    function CenterX(): real { (left + right) / 2.0 }

    function CenterY(): real { (top + bottom) / 2.0 }

    function Width(): real { right - left }

    function Height(): real { bottom - top }
  }

  const Empty := Rect(0.0, 0.0, 0.0, 0.0)

  /**
   * The icon slot laid out on a size change: an `iconWidth` by `iconHeight`
   * box centred on the lower round end of the pill, at (`radius`, `height - radius`).
   */
  function IconSlot(radius: real, height: real, iconWidth: real, iconHeight: real): (r: Rect)
    ensures r.CenterX() == radius && r.CenterY() == height - radius
    ensures r.Width() == iconWidth && r.Height() == iconHeight
  {
    var halfWidth := iconWidth / 2.0;
    var halfHeight := iconHeight / 2.0;
    Rect(radius - halfWidth, (height - radius) - halfHeight, radius + halfWidth, (height - radius) + halfHeight)
  }

  /**
   * The background's top edge at progress `p`: collapsed at `startHeight`
   * when `p == 0`, fully revealed at 0 when `p == 1`, and in between for `p` in [0, 1].
   */
  function RevealTop(startHeight: real, p: real): (top: real)
    ensures p == 0.0 ==> top == startHeight
    ensures p == 1.0 ==> top == 0.0
    ensures 0.0 <= p <= 1.0 ==> Min(0.0, startHeight) <= top <= Max(0.0, startHeight)
  {
    startHeight - Lerp(0.0, startHeight, p)
  }

  /** On a view taller than wide the top edge only rises as progress advances. */
  lemma RevealTopRises(startHeight: real, p: real, q: real)
    requires 0.0 <= startHeight && p <= q
    ensures RevealTop(startHeight, q) <= RevealTop(startHeight, p)
  {
    LerpMonotone(0.0, startHeight, p, q);
  }

  /**
   * The slide offset of the incoming bottom icon during the reverse step:
   * a full diameter at `p == 0`, none at `p == 1`, and within [0, diameter] in between.
   */
  function SlideOffset(radius: real, p: real): (offset: real)
    ensures p == 0.0 ==> offset == radius * 2.0
    ensures p == 1.0 ==> offset == 0.0
    ensures 0.0 <= radius && 0.0 <= p <= 1.0 ==> 0.0 <= offset <= radius * 2.0
  {
    Lerp(radius * 2.0, 0.0, p)
  }

  /** The offset shrinks as progress grows (and grows back as the mirrored leg runs it down). */
  lemma SlideOffsetShrinks(radius: real, p: real, q: real)
    requires 0.0 <= radius && p <= q
    ensures SlideOffset(radius, q) <= SlideOffset(radius, p)
  {
    LerpMonotone(radius * 2.0, 0.0, p, q);
  }
}

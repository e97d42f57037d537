/**
 * The arithmetic of `watermark_image` and `load_font`: the font size floor and
 * the top-right placement of the pole ID. The measured text box and the margin
 * come from the imaging library and from a floating-point ratio of the image
 * width, so they enter as integers.
 */
module Layout {

  /** The smallest font size `load_font` ever asks for. */
  const MinFontSize: int := 12

  /**
   * `max(12, int(img_height * FONT_SIZE_RATIO))`, with the scaled size given.
   * The result is the larger of the two: never below the floor, never below
   * the scaled size, and one of them.
   */
  function FontSize(scaled: int): (size: int)
    ensures size >= MinFontSize && size >= scaled
    ensures size == MinFontSize || size == scaled
  {
    if scaled > MinFontSize then scaled else MinFontSize
  }

  /** The box `textbbox` reports: left, top, right, bottom. */
  datatype BBox = BBox(left: int, top: int, right: int, bottom: int)

  /** `bbox[2] - bbox[0]`. */
  function TextWidth(box: BBox): int {
    box.right - box.left
  }

  datatype Point = Point(x: int, y: int)

  /**
   * Where the ID is drawn: its box ends `margin` pixels before the right edge
   * of an image `width` pixels wide, and it starts `margin` pixels from the top.
   */
  function Placement(width: int, box: BBox, margin: int): (p: Point)
    ensures p.x + TextWidth(box) + margin == width
    ensures p.y == margin
  {
    Point(width - TextWidth(box) - margin, margin)
  }

  /**
   * When the text and both margins fit in the width, the text lies inside the
   * image with at least `margin` pixels to its left.
   */
  lemma PlacementInside(width: int, box: BBox, margin: int)
    requires 0 <= margin && 0 <= TextWidth(box) && TextWidth(box) + 2 * margin <= width
    ensures margin <= Placement(width, box, margin).x
    ensures Placement(width, box, margin).x + TextWidth(box) <= width
  {
  }
}

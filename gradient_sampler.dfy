/**
 * DefaultGradientSampler: the colour a two-colour gradient gives each corner of a rectangle.
 * Every sampler hands each corner either the start or the end colour.
 */
module GradientSampler {
  import opened JavaLang

  /** The corners of a rectangle (RectangleCorner is not part of this model beyond its four values). */
  datatype RectangleCorner = TOP_LEFT | TOP_RIGHT | BOTTOM_LEFT | BOTTOM_RIGHT {
    predicate IsLeft() { this == TOP_LEFT || this == BOTTOM_LEFT }
    predicate IsTop() { this == TOP_LEFT || this == TOP_RIGHT }
  }

  datatype DefaultGradientSampler = HORIZONTAL | VERTICAL | ROTATED_45 | ROTATED_NEG_45

  /** The corner on the other side of the vertical axis. */
  function MirrorX(c: RectangleCorner): (r: RectangleCorner)
    ensures r.IsTop() == c.IsTop() && r.IsLeft() != c.IsLeft()
  {
    match c
    case TOP_LEFT => TOP_RIGHT
    case TOP_RIGHT => TOP_LEFT
    case BOTTOM_LEFT => BOTTOM_RIGHT
    case BOTTOM_RIGHT => BOTTOM_LEFT
  }

  /** The corner on the other side of the horizontal axis. */
  function MirrorY(c: RectangleCorner): (r: RectangleCorner)
    ensures r.IsLeft() == c.IsLeft() && r.IsTop() != c.IsTop()
  {
    match c
    case TOP_LEFT => BOTTOM_LEFT
    case TOP_RIGHT => BOTTOM_RIGHT
    case BOTTOM_LEFT => TOP_LEFT
    case BOTTOM_RIGHT => TOP_RIGHT
  }

  /** The corner mirrored in the main diagonal (top-right and bottom-left swap places). */
  function Transpose(c: RectangleCorner): (r: RectangleCorner)
    ensures r.IsLeft() == c.IsTop() && r.IsTop() == c.IsLeft()
  {
    match c
    case TOP_LEFT => TOP_LEFT
    case TOP_RIGHT => BOTTOM_LEFT
    case BOTTOM_LEFT => TOP_RIGHT
    case BOTTOM_RIGHT => BOTTOM_RIGHT
  }

  /** DefaultGradientSampler.sample: remapHorizontal, remapVertical, remapRotated45 or remapRotatedNeg45. */
  function Sample(s: DefaultGradientSampler, start: Int32, end: Int32, corner: RectangleCorner): (r: Int32)
    ensures r == start || r == end
    ensures start == end ==> r == start
  {
    match s
    case HORIZONTAL =>
      (match corner
       case TOP_LEFT => start
       case BOTTOM_LEFT => start
       case _ => end)
    case VERTICAL =>
      (match corner
       case TOP_LEFT => start
       case TOP_RIGHT => start
       case _ => end)
    case ROTATED_45 =>
      (match corner
       case TOP_RIGHT => start
       case BOTTOM_LEFT => start
       case _ => end)
    case ROTATED_NEG_45 =>
      (match corner
       case TOP_LEFT => start
       case BOTTOM_RIGHT => start
       case _ => end)
  }

  /** The horizontal gradient runs from the left edge (start) to the right edge (end). */
  lemma HorizontalByEdge(start: Int32, end: Int32, c: RectangleCorner)
    requires start != end
    ensures Sample(HORIZONTAL, start, end, c) == start <==> c.IsLeft()
  {
  }

  /** The vertical gradient runs from the top edge (start) to the bottom edge (end). */
  lemma VerticalByEdge(start: Int32, end: Int32, c: RectangleCorner)
    requires start != end
    ensures Sample(VERTICAL, start, end, c) == start <==> c.IsTop()
  {
  }

  /** The 45° gradient gives the start colour to the two anti-diagonal corners, top-right and bottom-left. */
  lemma Rotated45ByDiagonal(start: Int32, end: Int32, c: RectangleCorner)
    requires start != end
    ensures Sample(ROTATED_45, start, end, c) == start <==> c.IsTop() != c.IsLeft()
  {
  }

  /** The -45° gradient gives the start colour to the two main-diagonal corners, top-left and bottom-right. */
  lemma RotatedNeg45ByDiagonal(start: Int32, end: Int32, c: RectangleCorner)
    requires start != end
    ensures Sample(ROTATED_NEG_45, start, end, c) == start <==> c.IsTop() == c.IsLeft()
  {
  }

  /** Mirroring the rectangle left to right swaps the colours of the horizontal and both rotated gradients. */
  lemma MirrorXSwapsColours(s: DefaultGradientSampler, start: Int32, end: Int32, c: RectangleCorner)
    requires s != VERTICAL
    ensures Sample(s, start, end, MirrorX(c)) == Sample(s, end, start, c)
  {
  }

  /** Mirroring top to bottom swaps the colours of the vertical and both rotated gradients. */
  lemma MirrorYSwapsColours(s: DefaultGradientSampler, start: Int32, end: Int32, c: RectangleCorner)
    requires s != HORIZONTAL
    ensures Sample(s, start, end, MirrorY(c)) == Sample(s, end, start, c)
  {
  }

  /** The vertical gradient is the horizontal one mirrored in the main diagonal. */
  lemma VerticalIsTransposedHorizontal(start: Int32, end: Int32, c: RectangleCorner)
    ensures Sample(VERTICAL, start, end, Transpose(c)) == Sample(HORIZONTAL, start, end, c)
  {
  }

  /** The two rotated gradients are each other's colour swap. */
  lemma RotationsAreSwapped(start: Int32, end: Int32, c: RectangleCorner)
    ensures Sample(ROTATED_NEG_45, start, end, c) == Sample(ROTATED_45, end, start, c)
  {
  }
}

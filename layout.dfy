/** Size negotiation of the wave progress view: how `onMeasure` turns the
    parent's measure specs and the view's padding into a square side, a
    single symmetric padding and a new circle radius. */
module Layout {
  import opened KotlinInt

  /** The three modes of an Android measure spec. */
  datatype MeasureMode = Unspecified | Exactly | AtMost

  /** The size half of a measure spec occupies its low 30 bits. */
  type SpecSize = x: int | 0 <= x < 0x4000_0000

  /** A measure spec handed down by the parent: a mode and a size. */
  datatype MeasureSpec = MeasureSpec(mode: MeasureMode, size: SpecSize)

  /** `View.resolveSize` keeps only the bits under MEASURED_SIZE_MASK (0x00ffffff). */
  const MEASURED_SIZE_LIMIT: int := 0x100_0000

  /** The four paddings the host view reports. */
  datatype Padding = Padding(left: Int32, right: Int32, top: Int32, bottom: Int32)

  /** The values `onMeasure` computes: the desired size on each axis, the
      square side, the symmetric padding and the new radius. */
  datatype Measurement = Measurement(
    desiredWidth: Int32,
    desiredHeight: Int32,
    side: int,
    minPadding: Int32,
    radius: Int32)

  /** Android's `View.resolveSize(size, measureSpec)`: an exact spec imposes
      its size, an at-most spec caps the desired size, an unspecified spec
      leaves it; the result is masked to its low 24 bits (two's complement
      `and` with 0x00ffffff is the Euclidean remainder modulo 2^24). */
  function ResolveSize(desired: int, spec: MeasureSpec): (r: int)
    ensures 0 <= r < MEASURED_SIZE_LIMIT
    ensures spec.mode == Exactly && spec.size < MEASURED_SIZE_LIMIT ==> r == spec.size
    ensures spec.mode == AtMost && 0 <= desired < MEASURED_SIZE_LIMIT ==>
              r == Min(desired, spec.size)
    ensures spec.mode == AtMost && 0 <= desired ==> r <= desired && r <= spec.size
    ensures spec.mode == Unspecified && 0 <= desired < MEASURED_SIZE_LIMIT ==> r == desired
  {
    var raw := match spec.mode
      case Exactly => spec.size
      case AtMost => if spec.size < desired then spec.size else desired
      case Unspecified => desired;
    raw % MEASURED_SIZE_LIMIT
  }

  /** The one padding applied on every side: the smallest of the four. */
  function MinPadding(p: Padding): (m: Int32)
    ensures m <= p.left && m <= p.right && m <= p.top && m <= p.bottom
    ensures m == p.left || m == p.right || m == p.top || m == p.bottom
  {
    Min(Min(p.left, p.right), Min(p.top, p.bottom))
  }

  /** What `onMeasure` computes from the current radius, the paddings and
      the two measure specs. */
  function Measure(p: Padding, radius: Int32, widthSpec: MeasureSpec, heightSpec: MeasureSpec): (m: Measurement)
    ensures var w := ResolveSize(m.desiredWidth, widthSpec);
            var h := ResolveSize(m.desiredHeight, heightSpec);
            m.side <= w && m.side <= h && (m.side == w || m.side == h)
    ensures 0 <= m.side < MEASURED_SIZE_LIMIT
    ensures m.minPadding == MinPadding(p)
  {
    var desiredWidth := Wrap(p.left + p.right + 2 * radius);
    var desiredHeight := Wrap(p.top + p.bottom + 2 * radius);
    var side := Min(ResolveSize(desiredWidth, widthSpec), ResolveSize(desiredHeight, heightSpec));
    var minPadding := MinPadding(p);
    Measurement(desiredWidth, desiredHeight, side, minPadding, Div(Wrap(side - minPadding * 2), 2))
  }

  /** The desired size on each axis is that axis's two paddings plus the
      diameter of the radius held before the update, unless the sum
      overflows an `Int`. */
  lemma DesiredSize(p: Padding, radius: Int32, widthSpec: MeasureSpec, heightSpec: MeasureSpec)
    ensures var m := Measure(p, radius, widthSpec, heightSpec);
            (InRange(p.left + p.right + 2 * radius) ==> m.desiredWidth == p.left + p.right + 2 * radius) &&
            (InRange(p.top + p.bottom + 2 * radius) ==> m.desiredHeight == p.top + p.bottom + 2 * radius)
  {
  }

  /** When the paddings fit in the side and nothing overflows, the new
      radius is the largest whole radius whose circle, padded on both sides,
      fits in the side; this holds for a negative padding too. */
  lemma RadiusFitsSide(p: Padding, radius: Int32, widthSpec: MeasureSpec, heightSpec: MeasureSpec)
    ensures var m := Measure(p, radius, widthSpec, heightSpec);
            InRange(2 * m.minPadding) && InRange(m.side - 2 * m.minPadding) && 2 * m.minPadding <= m.side ==>
              0 <= m.radius &&
              2 * m.radius + 2 * m.minPadding <= m.side < 2 * m.radius + 2 * m.minPadding + 2
  {
  }

  /** When the paddings do not fit, the radius is the side's shortfall
      halved and truncated toward zero, so it is never positive. */
  lemma RadiusWhenPaddingExceedsSide(p: Padding, radius: Int32, widthSpec: MeasureSpec, heightSpec: MeasureSpec)
    ensures var m := Measure(p, radius, widthSpec, heightSpec);
            InRange(m.side - 2 * m.minPadding) && m.side < 2 * m.minPadding ==>
              m.radius <= 0 &&
              2 * m.radius - 2 < m.side - 2 * m.minPadding <= 2 * m.radius
  {
  }

  /** An exact width of 200 and an at-most height of 300 with no padding
      give a 200-pixel square, and the radius becomes 100, for every current
      radius from 100 up to the largest whose diameter does not wrap. */
  lemma ExactAndAtMostExample(radius: Int32)
    requires 100 <= radius < 0x4000_0000
    ensures var m := Measure(Padding(0, 0, 0, 0), radius, MeasureSpec(Exactly, 200), MeasureSpec(AtMost, 300));
            m.side == 200 && m.minPadding == 0 && m.radius == 100
  {
  }
}

/** The view object: the fields `onMeasure` and `onDraw` update in place. */
module View {
  import opened KotlinInt
  import opened Layout
  import opened WavePath

  class WaveProgressView {
    /** Circle radius in pixels: the configured one until the first measure pass. */
    var radius: Int32
    /** The symmetric padding chosen by the last measure pass. */
    var minPadding: Int32
    /** The side of the square drawing area, kept as a `Double` on each axis. */
    var width: real
    var height: real
    var progress: real
    const maxProgress: real
    /** The shared `Path` object, as the commands appended to it since its last reset. */
    var path: seq<PathCommand>

    /** Owned by the host `View`: its paddings and the dimension last
        reported through `setMeasuredDimension`. */
    var padding: Padding
    var measuredWidth: int
    var measuredHeight: int

    /** A freshly constructed view: radius, progress and maximum come from
        the styled attributes, the path is empty and nothing is measured. */
    constructor (radius: Int32, progress: real, maxProgress: real, padding: Padding)
      ensures this.radius == radius && this.progress == progress && this.maxProgress == maxProgress
      ensures this.padding == padding
      ensures minPadding == 0 && width == 0.0 && height == 0.0
      ensures measuredWidth == 0 && measuredHeight == 0
      ensures path == []
    {
      this.radius := radius;
      this.progress := progress;
      this.maxProgress := maxProgress;
      this.padding := padding;
      minPadding := 0;
      width, height := 0.0, 0.0;
      measuredWidth, measuredHeight := 0, 0;
      path := [];
    }

    /** `onMeasure`: resolves both axes, makes the view square on the smaller
        one, and derives the symmetric padding and the new radius from it. */
    method OnMeasure(widthSpec: MeasureSpec, heightSpec: MeasureSpec)
      modifies this`radius, this`minPadding, this`width, this`height
      modifies this`measuredWidth, this`measuredHeight
      ensures var m := Measure(padding, old(radius), widthSpec, heightSpec);
              && measuredWidth == measuredHeight == m.side
              && width == height == m.side as real
              && minPadding == m.minPadding
              && radius == m.radius
    {
      var exceptW := Wrap(padding.left + padding.right + 2 * radius);
      var exceptH := Wrap(padding.top + padding.bottom + 2 * radius);
      var w := ResolveSize(exceptW, widthSpec);
      var h := ResolveSize(exceptH, heightSpec);
      var min := Min(w, h);
      height := min as real;
      width := height;

      var minLR := Min(padding.left, padding.right);
      var minTB := Min(padding.top, padding.bottom);
      minPadding := Min(minLR, minTB);
      radius := Div(Wrap(min - minPadding * 2), 2);
      measuredWidth, measuredHeight := min, min;
    }

    /** The wave-path part of `onDraw`: resets the path and appends the
        outline, the bump pairs and `close`. The result does not depend on
        what the path held before. */
    method RebuildWavePath()
      requires maxProgress != 0.0
      modifies this`path
      ensures path == Wave(radius, progress, maxProgress)
    {
      path := [];
      var percent := Percent(progress, maxProgress);
      var y := WaveLevel(percent, radius);
      var diameter := Diameter(radius);
      path := path + [MoveTo(diameter, y)];
      path := path + [LineTo(diameter, diameter)];
      path := path + [LineTo(0.0, diameter)];

      path := path + [LineTo(TailX(percent, radius), y)];
      ghost var outline := path;
      if progress != 0.0 {
        var count := BumpCount(radius);
        var point := Amplitude(percent);
        var i := 0;
        while i < count
          invariant 0 <= i <= Iterations(count)
          invariant path == outline + Bumps(i, point)
        {
          path := path + [RQuadTo(15.0, -point, 30.0, 0.0)];
          path := path + [RQuadTo(15.0, point, 30.0, 0.0)];
          i := i + 1;
        }
      }
      path := path + [Close];
    }
  }
}

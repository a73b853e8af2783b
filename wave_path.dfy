/** The closed wave outline that `onDraw` rebuilds on every draw: the
    container's right, bottom and left edges followed by a train of
    quadratic bumps for the fluid surface. Coordinates are local to the
    circle's bounding box, whose top-left corner is the origin. */
module WavePath {
  import opened KotlinInt

  /** The `android.graphics.Path` calls the builder makes, in order. */
  datatype PathCommand =
    | MoveTo(x: real, y: real)
    | LineTo(x: real, y: real)
    | RQuadTo(dx1: real, dy1: real, dx2: real, dy2: real)
    | Close

  /** Width of one half-bump: `rQuadTo` moves the pen 30 to the right. */
  const HALF_BUMP: real := 30.0

  /** The fill ratio, unclamped. */
  function Percent(progress: real, maxProgress: real): (p: real)
    requires maxProgress != 0.0
  {
    progress / maxProgress
  }

  /** Height of the flat wave line below the top of the bounding box. */
  function WaveLevel(percent: real, radius: int): (y: real) {
    (1.0 - percent) * (radius as real) * 2.0
  }

  /** `(radius * 2).toFloat()`: the diameter computed in `Int` arithmetic. */
  function Diameter(radius: Int32): (d: real)
    ensures InRange(2 * radius) ==> d == 2.0 * (radius as real)
  {
    Wrap(radius * 2) as real
  }

  /** Where the left edge ends: `-(1 - percent) * radius * 2`, as far left
      of the box as the wave line is below its top. */
  function TailX(percent: real, radius: int): (x: real)
    ensures x == -WaveLevel(percent, radius)
  {
    -(1.0 - percent) * (radius as real) * 2.0
  }

  /** Height of every bump. */
  function Amplitude(percent: real): (a: real) {
    (1.0 - percent) * 15.0
  }

  /** The number of bump pairs, `radius * 4 / 60` in `Int` arithmetic. */
  function BumpCount(radius: Int32): (c: int)
    ensures InRange(4 * radius) && 0 <= radius ==> 0 <= c && 60 * c <= 4 * radius < 60 * c + 60
    ensures InRange(4 * radius) && radius < 0 ==> c <= 0
  {
    Div(Wrap(radius * 4), 60)
  }

  /** Kotlin's `lo until hi`: the integers from `lo` up to but excluding `hi`,
      in increasing order. */
  function Until(lo: int, hi: int): (r: seq<int>)
    ensures forall k :: 0 <= k < |r| ==> r[k] == lo + k
    decreases hi - lo
  {
    if lo >= hi then [] else [lo] + Until(lo + 1, hi)
  }

  /** `lo until hi` holds `hi - lo` integers when `lo < hi`, and none otherwise. */
  lemma {:induction false} UntilLength(lo: int, hi: int)
    ensures |Until(lo, hi)| == if lo < hi then hi - lo else 0
    decreases hi - lo
  {
    if lo < hi {
      UntilLength(lo + 1, hi);
    }
  }

  /** How many times `for (i in 0 until count)` runs: once per element of
      `0 until count`. */
  function Iterations(count: int): (n: nat)
    ensures n == |Until(0, count)|
  {
    UntilLength(0, count);
    if count > 0 then count else 0
  }

  /** The rising half of a bump pair, `rQuadTo(15, -a, 30, 0)`. */
  function Crest(a: real): (c: PathCommand) {
    RQuadTo(15.0, -a, HALF_BUMP, 0.0)
  }

  /** The falling half of a bump pair, `rQuadTo(15, a, 30, 0)`. */
  function Trough(a: real): (c: PathCommand) {
    RQuadTo(15.0, a, HALF_BUMP, 0.0)
  }

  /** `n` bump pairs of amplitude `a`, crests at even and troughs at odd positions. */
  function Bumps(n: nat, a: real): (r: seq<PathCommand>)
    ensures |r| == 2 * n
    ensures forall k :: 0 <= k < |r| ==> r[k] == if k % 2 == 0 then Crest(a) else Trough(a)
  {
    if n == 0 then [] else Bumps(n - 1, a) + [Crest(a), Trough(a)]
  }

  /** The path the builder leaves behind for a radius and a progress: one
      contour, opened by its first command and closed by its last, with
      five commands plus two per bump pair. */
  function Wave(radius: Int32, progress: real, maxProgress: real): (r: seq<PathCommand>)
    requires maxProgress != 0.0
    ensures |r| == 5 + 2 * (if progress != 0.0 then Iterations(BumpCount(radius)) else 0)
    ensures r[0].MoveTo? && forall k :: 0 < k < |r| ==> !r[k].MoveTo?
    ensures r[|r| - 1] == Close && forall k :: 0 <= k < |r| - 1 ==> r[k] != Close
  {
    var percent := Percent(progress, maxProgress);
    var diameter := Diameter(radius);
    var y := WaveLevel(percent, radius);
    var outline := [
      MoveTo(diameter, y),
      LineTo(diameter, diameter),
      LineTo(0.0, diameter),
      LineTo(TailX(percent, radius), y)
    ];
    var train := if progress != 0.0 then Bumps(Iterations(BumpCount(radius)), Amplitude(percent)) else [];
    outline + train + [Close]
  }

  // ---------------------------------------------------------------------
  // The pen: where each command leaves the path's current point.

  /** The current point and the start of the current contour. */
  datatype Pen = Pen(x: real, y: real, startX: real, startY: real)

  /** `moveTo` starts a contour, `lineTo` moves to a point, `rQuadTo` moves
      by its end offset relative to the current point, `close` returns to
      the contour's start. */
  function Step(pen: Pen, c: PathCommand): (next: Pen) {
    match c
    case MoveTo(x, y) => Pen(x, y, x, y)
    case LineTo(x, y) => pen.(x := x, y := y)
    case RQuadTo(_, _, dx, dy) => pen.(x := pen.x + dx, y := pen.y + dy)
    case Close => pen.(x := pen.startX, y := pen.startY)
  }

  /** The pen after running a sequence of commands. */
  function Trace(pen: Pen, cmds: seq<PathCommand>): (last: Pen)
    decreases |cmds|
  {
    if cmds == [] then pen else Trace(Step(pen, cmds[0]), cmds[1..])
  }

  lemma {:induction false} TraceAppend(pen: Pen, s: seq<PathCommand>, t: seq<PathCommand>)
    ensures Trace(pen, s + t) == Trace(Trace(pen, s), t)
    decreases |s|
  {
    if s == [] {
      assert s + t == t;
    } else {
      assert (s + t)[1..] == s[1..] + t;
      TraceAppend(Step(pen, s[0]), s[1..], t);
    }
  }

  /** A crest followed by a trough moves the pen 60 to the right and leaves
      its height unchanged, whatever the amplitude. */
  lemma BumpPairNet(pen: Pen, a: real)
    ensures Trace(pen, [Crest(a), Trough(a)]) == pen.(x := pen.x + 2.0 * HALF_BUMP)
  {
    var up := Step(pen, Crest(a));
    assert [Crest(a), Trough(a)][1..] == [Trough(a)];
    assert Trace(pen, [Crest(a), Trough(a)]) == Trace(up, [Trough(a)]);
    assert Trace(up, [Trough(a)]) == Step(up, Trough(a));
  }

  /** The bump train moves the pen `60 * n` to the right and ends at the
      height it started from. */
  lemma {:induction false} BumpsNet(pen: Pen, n: nat, a: real)
    ensures Trace(pen, Bumps(n, a)) == pen.(x := pen.x + 60.0 * (n as real))
  {
    if n > 0 {
      var before := Bumps(n - 1, a);
      TraceAppend(pen, before, [Crest(a), Trough(a)]);
      BumpsNet(pen, n - 1, a);
      BumpPairNet(Trace(pen, before), a);
    }
  }

  // ---------------------------------------------------------------------
  // Properties of the built path.

  /** The shape of the path: the four outline commands with their endpoint
      formulas, then `2 * count` alternating bumps only when the progress is
      not zero, then `close`. */
  lemma WaveShape(radius: Int32, progress: real, maxProgress: real)
    requires maxProgress != 0.0
    ensures var r := Wave(radius, progress, maxProgress);
            var p := Percent(progress, maxProgress);
            var d := Wrap(radius * 2) as real;
            var y := (1.0 - p) * (radius as real) * 2.0;
            var pairs := if progress != 0.0 then Iterations(BumpCount(radius)) else 0;
            && |r| == 5 + 2 * pairs
            && r[0] == MoveTo(d, y)
            && r[1] == LineTo(d, d)
            && r[2] == LineTo(0.0, d)
            && r[3] == LineTo(-(1.0 - p) * (radius as real) * 2.0, y)
            && r[|r| - 1] == Close
            && (forall k :: 4 <= k < |r| - 1 ==>
                  r[k] == if k % 2 == 0 then Crest(Amplitude(p)) else Trough(Amplitude(p)))
  {
    var r := Wave(radius, progress, maxProgress);
    var p := Percent(progress, maxProgress);
    var pairs := if progress != 0.0 then Iterations(BumpCount(radius)) else 0;
    var d := Diameter(radius);
    var y := WaveLevel(p, radius);
    var outline := [MoveTo(d, y), LineTo(d, d), LineTo(0.0, d), LineTo(TailX(p, radius), y)];
    var train := Bumps(pairs, Amplitude(p));
    assert r == outline + train + [Close];
    forall k | 4 <= k < |r| - 1
      ensures r[k] == if k % 2 == 0 then Crest(Amplitude(p)) else Trough(Amplitude(p))
    {
      assert r[k] == train[k - 4];
    }
  }

  /** With zero progress the path is the bare outline: four edges and `close`. */
  lemma ZeroProgressHasNoBumps(radius: Int32, maxProgress: real)
    requires maxProgress != 0.0
    ensures var r := Wave(radius, 0.0, maxProgress);
            |r| == 5 && forall k :: 0 <= k < |r| ==> !r[k].RQuadTo?
  {
  }

  /** Where the pen goes: the outline leaves it at the left tail
      `(TailX, WaveLevel)`, the bump train carries it `60 * count` to the
      right at the same height, and `close` brings it back to the start
      `(Diameter, WaveLevel)`. */
  lemma WaveTrace(pen: Pen, radius: Int32, progress: real, maxProgress: real)
    requires maxProgress != 0.0
    ensures var r := Wave(radius, progress, maxProgress);
            var p := Percent(progress, maxProgress);
            var d := Diameter(radius);
            var y := WaveLevel(p, radius);
            var tailX := TailX(p, radius);
            var pairs := if progress != 0.0 then Iterations(BumpCount(radius)) else 0;
            && Trace(pen, r[..4]) == Pen(tailX, y, d, y)
            && Trace(pen, r[..|r| - 1]) == Pen(tailX + 60.0 * (pairs as real), y, d, y)
            && Trace(pen, r) == Pen(d, y, d, y)
  {
    var r := Wave(radius, progress, maxProgress);
    var p := Percent(progress, maxProgress);
    var pairs := if progress != 0.0 then Iterations(BumpCount(radius)) else 0;
    var d := Diameter(radius);
    var y := WaveLevel(p, radius);
    var tailX := TailX(p, radius);
    var outline := [MoveTo(d, y), LineTo(d, d), LineTo(0.0, d), LineTo(tailX, y)];
    var train := Bumps(pairs, Amplitude(p));
    assert r == outline + train + [Close];
    assert r[..4] == outline;
    assert r[..|r| - 1] == outline + train;
    var p1 := Pen(d, y, d, y);
    var p2 := Pen(d, d, d, y);
    var p3 := Pen(0.0, d, d, y);
    assert Trace(pen, outline) == Trace(p1, outline[1..]);
    assert Trace(p1, outline[1..]) == Trace(p2, outline[2..]);
    assert Trace(p2, outline[2..]) == Trace(p3, outline[3..]);
    assert Trace(p3, outline[3..]) == Trace(Pen(tailX, y, d, y), []);
    TraceAppend(pen, outline, train);
    BumpsNet(Trace(pen, outline), pairs, Amplitude(p));
    TraceAppend(pen, outline + train, [Close]);
  }

  /** The wave line sits at the bottom of the box when empty and at the top when full. */
  lemma WaveLevelEnds(radius: int)
    ensures WaveLevel(0.0, radius) == 2.0 * (radius as real)
    ensures WaveLevel(1.0, radius) == 0.0
  {
  }

  /** The wave line rises as the fill ratio grows. */
  lemma WaveLevelFalls(radius: int, p1: real, p2: real)
    requires 0 <= radius && p1 <= p2
    ensures WaveLevel(p2, radius) <= WaveLevel(p1, radius)
  {
  }

  /** The bumps flatten as the fill ratio grows and vanish when full. */
  lemma AmplitudeFalls(p1: real, p2: real)
    requires p1 <= p2
    ensures Amplitude(p2) <= Amplitude(p1)
    ensures Amplitude(1.0) == 0.0
  {
  }

  /** For a radius whose quadruple fits in an `Int`, the bump train spans
      `60 * count`, the largest multiple of 60 not above `4 * radius`; a
      radius of at most 14 gets no bumps. */
  lemma BumpCountSpan(radius: Int32)
    requires 0 <= radius && InRange(radius * 4)
    ensures var c := BumpCount(radius);
            0 <= c && 60 * c <= 4 * radius < 60 * c + 60
    ensures radius < 15 <==> BumpCount(radius) == 0
  {
  }

  /** So when the progress is not zero the train ends within 60 of
      `2r * (1 + p)`, reaching past the right edge of the box whenever
      `2r * p >= 60`. */
  lemma TrainReach(pen: Pen, radius: Int32, progress: real, maxProgress: real)
    requires maxProgress != 0.0 && progress != 0.0
    requires 0 <= radius && InRange(radius * 4)
    ensures var r := Wave(radius, progress, maxProgress);
            var p := Percent(progress, maxProgress);
            var end := Trace(pen, r[..|r| - 1]).x;
            2.0 * (radius as real) * (1.0 + p) - 60.0 < end <= 2.0 * (radius as real) * (1.0 + p)
  {
    WaveTrace(pen, radius, progress, maxProgress);
    BumpCountSpan(radius);
    var c := BumpCount(radius);
    assert 60.0 * (c as real) <= 4.0 * (radius as real) < 60.0 * (c as real) + 60.0;
  }
}

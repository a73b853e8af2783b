# WaveProgressView in Dafny

A model of the two computations inside the Android view `WaveProgressView`.
The view draws a circle filled with liquid. The liquid's wavy surface rises with the progress value.

- **Layout (`onMeasure`).** The view asks for its padding plus the circle's diameter on each axis. It resolves each axis against the parent's measure spec and keeps the smaller result as the side of a square. It takes the smallest of the four paddings as one symmetric padding and derives a new radius from the side and that padding.
- **Wave path (inside `onDraw`).** The view resets its shared `Path` and appends commands in a fixed order. First the right, bottom and left edges of the container. Then, when the progress is not zero, `radius * 4 / 60` pairs of quadratic bumps. Last, `close`.

Modules:

- `KotlinInt` (`kotlin_int.dfy`): Kotlin's 32-bit `Int`. This covers two's-complement wrap-around (`Wrap`), division truncating toward zero (`Div`) and `min`.
- `Layout` (`layout.dfy`): measure modes and specs, Android's `View.resolveSize`, the minimum padding, and `Measure`. `Measure` is the pure statement of what `onMeasure` computes; lemmas about it follow.
- `WavePath` (`wave_path.dfy`): the path command datatype and `Wave`, the path the builder produces. It also has a pen model, which records where each command leaves the path's current point. Lemmas state the path's shape, length, endpoints and the net displacement of the bumps.
- `View` (`view.dfy`): the class `WaveProgressView` with the fields the source updates in place: `radius`, `minPadding`, `width`, `height`, `path`. `OnMeasure` assigns the fields step by step as the source does, and is proved equal to `Measure`. `RebuildWavePath` resets `path` and appends to it in a loop, and is proved equal to `Wave`.

Modelling choices:

- Kotlin `Int` expressions that can overflow are wrapped explicitly: the desired sizes, `min - minPadding * 2`, `radius * 2` and `radius * 4`. Kotlin's `/` truncates toward zero. This matters for the radius when the padding exceeds the side, and for the bump count when the radius is negative.
- `View.resolveSize` is Android framework code. It is modelled by Android's documented rule. EXACTLY gives the spec size. AT_MOST gives the smaller of the desired and spec sizes. UNSPECIFIED gives the desired size. The result is then kept to its low 24 bits (`MEASURED_SIZE_MASK`), as Android does. `ResolveSize`'s contract gives the plain rule whenever the values lie within that range.
- `Float` and `Double` values are modelled as `real`. The fill ratio is `progress / maxProgress`, unclamped, and both path methods require `maxProgress != 0`.
- A measure spec is a mode plus a 30-bit size (`MeasureSpec`). Android packs both into one `Int`; that encoding is framework code and is not modelled.
- `radius * 4 / 60` is an `Int` division that truncates toward zero. A floor division would differ only when `radius * 4` is negative as an `Int`, which needs a negative radius or a radius of 2^29 or more. A radius below -2^29 also wraps, and its product can be positive. With either division the loop `0 until count` runs zero times for a count of zero or less.
- An exact width of 200, an at-most height of 300 and no padding give a 200-pixel square and a radius of 100 for every current radius from 100 to 2^30 - 1; `ExactAndAtMostExample` proves this. Other radii can also give a 200 side, for example a negative radius whose desired height the 24-bit mask turns into a large size, while a radius of 2^30 wraps the diameter and gives side 0.

## Model

| member | source | states |
|---|---|---|
| `KotlinInt.Wrap` | WaveProgressView1/src/main/java/com/diaa/waveprogressview/WaveProgressView.kt:42-43 | the `Int` result differs from the exact value by a multiple of 2^32 and equals it whenever the exact value fits in 32 bits |
| `KotlinInt.Div` | WaveProgressView1/src/main/java/com/diaa/waveprogressview/WaveProgressView.kt:53 | `Int` division by a positive divisor truncates toward zero: the remainder has the dividend's sign and is smaller than the divisor, and the quotient lies between 0 and the dividend |
| `KotlinInt.Min` | WaveProgressView1/src/main/java/com/diaa/waveprogressview/WaveProgressView.kt:46 | `min` is at most both arguments and equals one of them |
| `Layout.ResolveSize` | WaveProgressView1/src/main/java/com/diaa/waveprogressview/WaveProgressView.kt:44-45 | the resolved size lies in [0, 2^24); in range it is the spec size for EXACTLY, the smaller of desired and spec for AT_MOST, the desired size for UNSPECIFIED; AT_MOST never exceeds a non-negative desired size or the spec size |
| `Layout.MinPadding` | WaveProgressView1/src/main/java/com/diaa/waveprogressview/WaveProgressView.kt:50-52 | the symmetric padding is at most each of the four paddings and equals one of them |
| `Layout.Measure` | WaveProgressView1/src/main/java/com/diaa/waveprogressview/WaveProgressView.kt:42-53 | the square side is at most both resolved axis sizes and equals one of them, lies in [0, 2^24), and the padding is the minimum of the four |
| `Layout.DesiredSize` | WaveProgressView1/src/main/java/com/diaa/waveprogressview/WaveProgressView.kt:42-43 | the desired size on each axis is that axis's two paddings plus twice the radius held before the update, whenever the sum fits in an `Int` |
| `Layout.RadiusFitsSide` | WaveProgressView1/src/main/java/com/diaa/waveprogressview/WaveProgressView.kt:53 | when twice the padding fits in the side and nothing overflows, negative padding included, the new radius is non-negative and `2*radius + 2*minPadding <= side < 2*radius + 2*minPadding + 2`, so it is the largest such radius (paddings of -3 and a side of 10 give radius 8) |
| `Layout.RadiusWhenPaddingExceedsSide` | WaveProgressView1/src/main/java/com/diaa/waveprogressview/WaveProgressView.kt:53 | when twice the padding exceeds the side, the new radius is the shortfall halved and truncated toward zero, so it is never positive |
| `Layout.ExactAndAtMostExample` | WaveProgressView1/src/main/java/com/diaa/waveprogressview/WaveProgressView.kt:41-55 | an exact width of 200, an at-most height of 300 and no padding give a 200 side, padding 0 and radius 100 for every current radius from 100 to 2^30 - 1, the largest whose diameter fits in an `Int` |
| `View.WaveProgressView.constructor` | WaveProgressView1/src/main/java/com/diaa/waveprogressview/WaveProgressView.kt:20-35 | a new view holds the configured radius, progress and maximum, an empty path, the host's paddings unchanged, and zero width, height and `minPadding` |
| `View.WaveProgressView.OnMeasure` | WaveProgressView1/src/main/java/com/diaa/waveprogressview/WaveProgressView.kt:41-55 | after measuring, the reported dimension is (side, side), the stored width and height both equal the side, and `minPadding` and `radius` are those of `Measure` on the paddings and the old radius |
| `View.WaveProgressView.RebuildWavePath` | WaveProgressView1/src/main/java/com/diaa/waveprogressview/WaveProgressView.kt:68-85 | after the reset and the appends, the path is exactly `Wave` of the radius and progress, whatever it held before, so drawing twice with the same inputs builds the same path |
| `WavePath.Until` | WaveProgressView1/src/main/java/com/diaa/waveprogressview/WaveProgressView.kt:80 | `lo until hi` lists `lo`, `lo+1`, ... in order, element `k` being `lo + k` |
| `WavePath.UntilLength` | WaveProgressView1/src/main/java/com/diaa/waveprogressview/WaveProgressView.kt:80 | `lo until hi` has `hi - lo` elements when `lo < hi` and none otherwise |
| `WavePath.Iterations` | WaveProgressView1/src/main/java/com/diaa/waveprogressview/WaveProgressView.kt:80 | the loop body runs once per element of `0 until count` |
| `WavePath.BumpCount` | WaveProgressView1/src/main/java/com/diaa/waveprogressview/WaveProgressView.kt:78 | for a non-negative radius whose quadruple fits in an `Int`, the count is the number of whole 60-pixel spans in `4*radius`; for a negative radius whose quadruple fits in an `Int` (down to -2^29) it is never positive, so the loop does not run |
| `WavePath.Diameter` | WaveProgressView1/src/main/java/com/diaa/waveprogressview/WaveProgressView.kt:71-73 | the container's edge coordinate is exactly `2*radius` whenever that product fits in an `Int` |
| `WavePath.TailX` | WaveProgressView1/src/main/java/com/diaa/waveprogressview/WaveProgressView.kt:75 | the outline's left tail lies as far left of 0 as the wave line lies below the top |
| `WavePath.Bumps` | WaveProgressView1/src/main/java/com/diaa/waveprogressview/WaveProgressView.kt:80-83 | `n` iterations append `2n` commands, `rQuadTo(15,-a,30,0)` at even and `rQuadTo(15,a,30,0)` at odd positions |
| `WavePath.Wave` | WaveProgressView1/src/main/java/com/diaa/waveprogressview/WaveProgressView.kt:68-85 | the rebuilt path is one contour: it opens with its only `moveTo`, ends with its only `close`, and holds five commands plus two per loop iteration, the loop running only for non-zero progress |
| `WavePath.WaveShape` | WaveProgressView1/src/main/java/com/diaa/waveprogressview/WaveProgressView.kt:68-85 | the path is `MoveTo(2r, y)`, `LineTo(2r, 2r)`, `LineTo(0, 2r)`, `LineTo(-(1-p)*2r, y)`, then alternating bumps of amplitude `(1-p)*15`, then `Close`, with `y = (1-p)*2r`; it has 5 commands when the progress is zero and `5 + 2*max(count, 0)` otherwise |
| `WavePath.ZeroProgressHasNoBumps` | WaveProgressView1/src/main/java/com/diaa/waveprogressview/WaveProgressView.kt:76 | with zero progress the path has five commands and no quadratic segment |
| `WavePath.BumpPairNet` | WaveProgressView1/src/main/java/com/diaa/waveprogressview/WaveProgressView.kt:81-82 | one bump pair moves the pen 60 to the right with zero net vertical offset, whatever the amplitude |
| `WavePath.BumpsNet` | WaveProgressView1/src/main/java/com/diaa/waveprogressview/WaveProgressView.kt:80-83 | the bump train spans `60*count` horizontally and ends at the height it started from |
| `WavePath.WaveTrace` | WaveProgressView1/src/main/java/com/diaa/waveprogressview/WaveProgressView.kt:71-85 | the outline leaves the pen at the left tail `(-(1-p)*2r, y)`, the bumps carry it `60*count` further right at height `y`, and `close` returns it to the start `(2r, y)` |
| `WavePath.WaveLevelEnds` | WaveProgressView1/src/main/java/com/diaa/waveprogressview/WaveProgressView.kt:69-70 | the wave line is at `2r` for a fill ratio of 0 and at 0 for a fill ratio of 1 |
| `WavePath.WaveLevelFalls` | WaveProgressView1/src/main/java/com/diaa/waveprogressview/WaveProgressView.kt:70 | for a non-negative radius the wave line moves up as the fill ratio grows |
| `WavePath.AmplitudeFalls` | WaveProgressView1/src/main/java/com/diaa/waveprogressview/WaveProgressView.kt:79 | the bump amplitude decreases as the fill ratio grows and is 0 at a fill ratio of 1 |
| `WavePath.BumpCountSpan` | WaveProgressView1/src/main/java/com/diaa/waveprogressview/WaveProgressView.kt:78 | for a non-negative radius whose quadruple fits in an `Int`, `60*count` is the largest multiple of 60 not above `4*radius`, and the count is 0 exactly when the radius is below 15 |
| `WavePath.TrainReach` | WaveProgressView1/src/main/java/com/diaa/waveprogressview/WaveProgressView.kt:75-83 | with non-zero progress and a non-negative radius whose quadruple fits in an `Int`, the bump train ends within 60 to the left of `2r*(1+p)` |

## Left out

- Canvas and bitmap work is not modelled: the lazy bitmap, `save`/`translate`/`restore`, `drawCircle`, `drawPath` with the `SRC_IN` blend, and `drawBitmap` (WaveProgressView.kt:58-65, 86, 93-94). It is rasterisation inside Android graphics. The mask that keeps the wave inside the circle is therefore not modelled.
- The label is not modelled (WaveProgressView.kt:88-92). It depends on Kotlin's float-to-string conversion and on `Paint` font metrics.
- `setProgress` is not modelled (WaveProgressView.kt:101-104). Its one-decimal rounding goes through `DecimalFormat` and `Float.valueOf`, which are library float formatting and parsing. `invalidate` is redraw plumbing.
- `getProgress` is not modelled (WaveProgressView.kt:97-99). It only returns the field.
- `dp2px` is not modelled (WaveProgressView.kt:106-113). It depends on display metrics. The constructor takes the radius already in pixels.
- `SavedState`, `onSaveInstanceState` and `onRestoreInstanceState` are not modelled (WaveProgressView.kt:115-146). They are framework persistence through `Parcel`.
- Attribute parsing and `Paint` setup in `init` are not modelled (WaveProgressView.kt:148-175). The constructor receives the resolved radius, progress and maximum as parameters. The colours and text size have no model.
- `View.WaveProgressView.RebuildWavePath`: requires `maxProgress != 0`. With a zero maximum the source divides by zero and builds a path from infinite or NaN floats. That case is not modelled.
- IEEE float rounding is not modelled. This covers the path coordinates, `Int` to `Float` conversion above 2^24, and `width`/`height` as `Double`. All of these are exact `real` values here.
- `Layout.ResolveSize`: takes the mode and size already decoded. It does not model how Android packs them into one `Int` measure spec. A fourth mode value, which Android treats as unspecified, is not represented.
- `WavePath.Step`: the pen records only the end point and the contour start. It does not record the curve's control points or the drawn geometry. It is the model's statement of how `Path` moves its current point, not Android code.

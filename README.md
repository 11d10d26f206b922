# CardinalDirection: the compass-sector classifier and its bearing control logic

`CardinalDirectionCalculator` answers "in which of the eight compass directions does point B lie
from point A?". It computes the initial bearing from A to B with spherical trigonometry. It then
normalises the bearing into the circle and truncates it to a whole degree with `intValue()`. A
chain of half-open interval tests over eight integer constants turns that degree into one of
the labels "North", "NorthEast", …, "NorthWest". A final `"?"` branch catches anything the
tests miss. A missing point, or two equal points, give the fallback bearing 0.0, which is
labelled "North".

This project models that logic in Dafny 4.11 and proves its properties:

- `java_numerics.dfy` (module `JavaNumerics`): Java's `Double.intValue()`. It rounds toward
  zero and saturates at the 32-bit `int` bounds.
- `compass.dfy` (module `Compass`): the label and sector constants, an eight-constructor
  `Direction` datatype with its clockwise order, and the sector table as a reference predicate
  (`InSector`). It also holds the if/else chain of `getCardinalDirection` as `Classify`, where
  `None` stands for the `"?"` branch, and the string it returns as `Label`. Lemmas show the
  chain is total and never reaches `"?"`, and that it agrees with the table in both directions.
  They also prove the exact half-open boundaries, that the label only advances clockwise, and
  the width of every sector.
- `calculator.dfy` (module `Calculator`): Java's `%` on doubles by `COMPASS_DEGREES`, which
  truncates and so keeps the dividend's sign (`CompassRem`). It also holds the normalisation
  (`Normalize`), the degenerate-input policy (`DirectionInDegrees`) and the whole
  `getCardinalDirection` (`GetCardinalDirection`). Degrees are `real`. The trigonometric bearing
  is a function parameter `azimuth: (LatLng, LatLng) -> real`, and the end-to-end lemma assumes
  it lies in `[-180, 180]`, the range of `atan2` in degrees.

Points where the code departs from what one would expect of a compass calculator, and where
the model follows the code:

- A bearing is conventionally in `[0, 360)`. The code's pass-through test at line 98 is
  `result <= COMPASS_DEGREES`, so the value 360 passes through unchanged. `Normalize` shows that
  exactly the input 360 yields 360, and `FullTurnIsNorth` shows it is labelled North. For a
  bearing in the range of `atan2`, the result is strictly below 360 (`NormalizeBearing`).
- One might expect an out-of-range degree value passed to the classifier to be either
  renormalised or signalled as an error. The code does neither. Its first test,
  `d >= NORTHWEST_MAX || d < NORTHEAST_MIN`, already labels every integer outside `[23, 337)`
  as North, including negative values and values of 360 or more, so `"?"` cannot be reached.
- The sector constants are not symmetric. `NORTHEAST_MIN` = 23 is the only boundary rounded up
  from the traditional `22.5 + 45k`; the other seven are rounded down. After truncation, North
  therefore spans 46 whole degrees, NorthEast 44 and each of the others 45 (`SectorWidths`).
  The model keeps the constants as written.

## Model

| member | source | states |
|---|---|---|
| `JavaNumerics.TruncateTowardZero` | src/main/java/dev/kearls/cardinaldirection/CardinalDirectionCalculator.java:113 | the result is the whole number next to `x` on the side of zero: `t <= x < t + 1` for non-negative `x`, `t - 1 < x <= t` for negative `x` |
| `JavaNumerics.IntValue` | src/main/java/dev/kearls/cardinaldirection/CardinalDirectionCalculator.java:113 | `intValue()` lies in the 32-bit range, rounds toward zero inside it and saturates at `INT_MAX` / `INT_MIN` outside it |
| `Compass.Direction.Next` | src/main/java/dev/kearls/cardinaldirection/CardinalDirectionCalculator.java:118-133 | the clockwise successor has the next index modulo 8 (N, NE, E, SE, S, SW, W, NW, N) |
| `Compass.Previous` | src/main/java/dev/kearls/cardinaldirection/CardinalDirectionCalculator.java:118-133 | the counter-clockwise neighbour is the inverse of `Next` |
| `Compass.Classify` | src/main/java/dev/kearls/cardinaldirection/CardinalDirectionCalculator.java:118-137 | the chain gives a point for every integer, so the `"?"` branch is unreachable; on `[0, 360)` the point's table sector contains `d`; outside the circle the answer is North |
| `Compass.Label` | src/main/java/dev/kearls/cardinaldirection/CardinalDirectionCalculator.java:118-137 | the returned string is never `"?"` and is the name of the point the chain selects |
| `Compass.NameInjective` | src/main/java/dev/kearls/cardinaldirection/CardinalDirectionCalculator.java:21-28 | the eight label strings are pairwise distinct, so a label names exactly one point |
| `Compass.SectorsPartition` | src/main/java/dev/kearls/cardinaldirection/CardinalDirectionCalculator.java:30-37 | no whole degree of the circle lies in two sectors of the table |
| `Compass.LabelMatchesTable` | src/main/java/dev/kearls/cardinaldirection/CardinalDirectionCalculator.java:118-133 | for `d` in `[0, 360)`, the chain returns `dir`'s label if and only if `d` lies in `dir`'s half-open sector |
| `Compass.Boundaries` | src/main/java/dev/kearls/cardinaldirection/CardinalDirectionCalculator.java:30-37 | at each of the eight boundaries `b`, `b` gets the sector's own label and `b - 1` gets the previous point's label |
| `Compass.BoundaryExamples` | src/main/java/dev/kearls/cardinaldirection/CardinalDirectionCalculator.java:118-123 | 22→North, 23→NorthEast, 66→NorthEast, 67→East, 336→NorthWest, 337→North, and -1 and 360 are North |
| `Compass.StepAdvances` | src/main/java/dev/kearls/cardinaldirection/CardinalDirectionCalculator.java:118-133 | for every integer `d`, the point for `d + 1` is the point for `d` or its clockwise successor |
| `Compass.Monotone` | src/main/java/dev/kearls/cardinaldirection/CardinalDirectionCalculator.java:118-133 | on `[0, 337)` the clockwise index of the point never decreases as `d` grows |
| `Compass.CountSplit` | src/main/java/dev/kearls/cardinaldirection/CardinalDirectionCalculator.java:118-133 | the count of degrees given to a point over `[lo, hi)` is the sum of the counts over `[lo, mid)` and `[mid, hi)` |
| `Compass.CountAll` | src/main/java/dev/kearls/cardinaldirection/CardinalDirectionCalculator.java:118-133 | over a run in which every degree gets `dir`, the count is the run's length |
| `Compass.CountNone` | src/main/java/dev/kearls/cardinaldirection/CardinalDirectionCalculator.java:118-133 | over a run in which no degree gets `dir`, the count is zero |
| `Compass.BelowSectorNone` | src/main/java/dev/kearls/cardinaldirection/CardinalDirectionCalculator.java:118-133 | a point other than North gets no degree from 0 up to its lower bound |
| `Compass.AboveSectorNone` | src/main/java/dev/kearls/cardinaldirection/CardinalDirectionCalculator.java:118-133 | a point other than North gets no degree from the next point's lower bound up to 360 |
| `Compass.InsideSectorAll` | src/main/java/dev/kearls/cardinaldirection/CardinalDirectionCalculator.java:118-133 | a point other than North gets every degree of its own sector |
| `Compass.CountThreeRuns` | src/main/java/dev/kearls/cardinaldirection/CardinalDirectionCalculator.java:118-133 | a count over `[a, d)` is the sum of the counts over three adjacent runs |
| `Compass.StraightSectorWidth` | src/main/java/dev/kearls/cardinaldirection/CardinalDirectionCalculator.java:30-37 | a sector that does not wrap holds exactly `Next().Lower() - Lower()` degrees of `[0, 360)` |
| `Compass.WrappingSectorWidth` | src/main/java/dev/kearls/cardinaldirection/CardinalDirectionCalculator.java:30-37 | the sector that wraps through 0 holds its lower bound's distance to 360 plus the next point's lower bound |
| `Compass.SectorWidths` | src/main/java/dev/kearls/cardinaldirection/CardinalDirectionCalculator.java:30-37 | of the 360 whole degrees, North gets 46, NorthEast 44 and every other point 45 |
| `Calculator.WholeTurnsAdd` | src/main/java/dev/kearls/cardinaldirection/CardinalDirectionCalculator.java:101 | the sum of two whole numbers of turns is a whole number of turns |
| `Calculator.WholeTurnsSub` | src/main/java/dev/kearls/cardinaldirection/CardinalDirectionCalculator.java:101 | the difference of two whole numbers of turns is a whole number of turns |
| `Calculator.WholeTurnsSmall` | src/main/java/dev/kearls/cardinaldirection/CardinalDirectionCalculator.java:101 | the only whole number of turns strictly between -360 and 360 is zero |
| `Calculator.CompassRem` | src/main/java/dev/kearls/cardinaldirection/CardinalDirectionCalculator.java:101 | `x % 360` lies strictly between -360 and 360, has the sign of `x`, and differs from `x` by a whole number of turns |
| `Calculator.CompassRemUnique` | src/main/java/dev/kearls/cardinaldirection/CardinalDirectionCalculator.java:101 | these properties determine `x % 360` uniquely |
| `Calculator.Normalize` | src/main/java/dev/kearls/cardinaldirection/CardinalDirectionCalculator.java:98-102 | the result lies in `[0, 360]`, a value already in `[0, 360]` is unchanged, the result differs from the input by whole turns, and it is 360 exactly when the input is 360 |
| `Calculator.NormalizeNegative` | src/main/java/dev/kearls/cardinaldirection/CardinalDirectionCalculator.java:98-102 | for `-360 < r < 0`, `(r % 360 + 360) % 360 == r + 360`, which lies in `(0, 360)` |
| `Calculator.NormalizeBearing` | src/main/java/dev/kearls/cardinaldirection/CardinalDirectionCalculator.java:97-102 | for a bearing in `[-180, 180]`, the result adds one turn to negative bearings, keeps the others, and lies in `[0, 360)` |
| `Calculator.NormalizeIsFlooredModulo` | src/main/java/dev/kearls/cardinaldirection/CardinalDirectionCalculator.java:98-102 | for every input other than 360, the result is the floored reduction `r - 360 * floor(r / 360)` |
| `Calculator.DirectionInDegrees` | src/main/java/dev/kearls/cardinaldirection/CardinalDirectionCalculator.java:80-103 | a missing point or two equal points give 0.0; otherwise the result is the normalised bearing `Normalize(azimuth(start, end))`, so it lies in `[0, 360]`, a bearing already in `[0, 360]` is returned unchanged, and it is a whole number of turns from the bearing |
| `Calculator.GetCardinalDirection` | src/main/java/dev/kearls/cardinaldirection/CardinalDirectionCalculator.java:112-138 | the answer is never `"?"`, it is the label of the point selected for the truncated degree value, and degenerate input gives "North" |
| `Calculator.TruncationIsFloor` | src/main/java/dev/kearls/cardinaldirection/CardinalDirectionCalculator.java:113 | on the normalised range `[0, 360]`, `intValue()` is the floor and lies in `[0, 360]` |
| `Calculator.SameLabelWithinDegree` | src/main/java/dev/kearls/cardinaldirection/CardinalDirectionCalculator.java:113-133 | every value of `[k, k + 1)`, for any `k` in the 32-bit range, gets the same label as the whole degree `k` (for negative `k` both are North) |
| `Calculator.FullTurnIsNorth` | src/main/java/dev/kearls/cardinaldirection/CardinalDirectionCalculator.java:113-119 | a normalised value of exactly 360 is labelled "North" |
| `Calculator.DirectionOfBearing` | src/main/java/dev/kearls/cardinaldirection/CardinalDirectionCalculator.java:80-133 | for distinct points and a bearing `b` in `[-180, 180]`, the answer is `dir`'s label if and only if the floor of `b`, plus 360 when `b` is negative, lies in `dir`'s sector |

## Left out

- `getLocation` (lines 56-67): a network call to the Google Maps geocoding service, cached by
  Spring. It is foreign, I/O-bound code.
- The `GeoApiContext` constructor and the `GOOGLE_MAPS_API_KEY` environment read (lines 18,
  40-46): configuration plumbing.
- The bearing computation of lines 86-97 (`Math.toRadians`, `sin`, `cos`, `atan2`,
  `Math.toDegrees`): IEEE floating-point trigonometry. It is the parameter `azimuth`. Its range
  `[-180, 180]` is assumed only where a lemma needs it (`NormalizeBearing`,
  `DirectionOfBearing`).
- The logging at lines 114 and 135 (`System.out.println`, `logger.warn`): side effects with no
  effect on the result.
- Floating-point rounding: `double` is modelled by `real`, which is exact. Java's `%` on doubles
  is itself exact, but the `+ COMPASS_DEGREES` step at line 101 can round. For example, a
  negative bearing very close to zero can round up to exactly 360.0, which is then reduced to
  0.0. NaN, the infinities and negative zero are not modelled.
- `LatLng.equals`: comparing two points is modelled as structural equality of the
  latitude/longitude pair. The Google Maps `LatLng` class is not part of this model.
- `CompassRem`: models Java's `%` only for the one divisor the code uses, `COMPASS_DEGREES`, not
  for an arbitrary divisor.
- The end-to-end tests of `CardinalDirectionApplicationTests.java` depend on live geocoding of
  city names. They are not modelled. Their label-level expectations are covered by the
  classifier lemmas.

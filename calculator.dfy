/** The control logic of `CardinalDirectionCalculator` around the bearing: the degenerate-input
    policy and the normalisation of `getCardinalDirectionInDegrees`, and the truncate-then-classify
    step of `getCardinalDirection`. The spherical-trigonometry bearing itself is a parameter. */
module Calculator {
  import opened Compass
  import opened JavaNumerics

  /** `COMPASS_DEGREES` as the `double` the normalisation computes with. */
  const DEGREES: real := COMPASS_DEGREES as real

  /** A latitude/longitude pair as the geocoder returns it; a null reference is `None`. */
  datatype LatLng = LatLng(lat: real, lng: real)

  /** `y` is a whole number of turns of the compass. */
  predicate WholeTurns(y: real) {
    (y / DEGREES).Floor as real == y / DEGREES
  }

  lemma WholeTurnsAdd(a: real, b: real)
    requires WholeTurns(a) && WholeTurns(b)
    ensures WholeTurns(a + b)
  {
    var ka, kb := (a / DEGREES).Floor, (b / DEGREES).Floor;
    assert (a + b) / DEGREES == (ka + kb) as real;
  }

  lemma WholeTurnsSub(a: real, b: real)
    requires WholeTurns(a) && WholeTurns(b)
    ensures WholeTurns(a - b)
  {
    var ka, kb := (a / DEGREES).Floor, (b / DEGREES).Floor;
    assert (a - b) / DEGREES == (ka - kb) as real;
  }

  /** The only whole number of turns smaller than a full turn is zero. */
  lemma WholeTurnsSmall(y: real)
    requires WholeTurns(y) && -DEGREES < y < DEGREES
    ensures y == 0.0
  {
    assert -1.0 < y / DEGREES < 1.0;
  }

  /** Java's `x % COMPASS_DEGREES` on `double`s: `x` less the whole turns in `x / 360` rounded
      toward zero. The result keeps the sign of `x`, so a negative `x` stays negative. */
  function CompassRem(x: real): (r: real)
    ensures -DEGREES < r < DEGREES
    ensures 0.0 <= x ==> 0.0 <= r
    ensures x <= 0.0 ==> r <= 0.0
    ensures WholeTurns(x - r)
  {
    var q := TruncateTowardZero(x / DEGREES);
    assert (x - (x - DEGREES * q as real)) / DEGREES == q as real;
    x - DEGREES * q as real
  }

  /** The contract of `CompassRem` determines its result: a value of the sign of `x`, smaller
      than a full turn and a whole number of turns away from `x` is `x % 360`. */
  lemma {:induction false} CompassRemUnique(x: real, r: real)
    requires -DEGREES < r < DEGREES
    requires 0.0 <= x ==> 0.0 <= r
    requires x <= 0.0 ==> r <= 0.0
    requires WholeTurns(x - r)
    ensures r == CompassRem(x)
  {
    var r0 := CompassRem(x);
    WholeTurnsSub(x - r, x - r0);
    assert (x - r) - (x - r0) == r0 - r;
    WholeTurnsSmall(r0 - r);
  }

  /** The normalisation step of `getCardinalDirectionInDegrees`: a value already in `[0, 360]`
      is returned unchanged, any other is brought into range with `(result % 360 + 360) % 360`.
      The result lies in `[0, 360]`, differs from the input by whole turns, and is 360 only for
      the input 360. */
  function Normalize(result: real): (n: real)
    ensures 0.0 <= n <= DEGREES
    ensures 0.0 <= result <= DEGREES ==> n == result
    ensures WholeTurns(result - n)
    ensures n == DEGREES <==> result == DEGREES
  {
    if result >= 0.0 && result <= DEGREES then
      assert result - result == 0.0;
      result
    else
      var r1 := CompassRem(result);
      var n := CompassRem(r1 + DEGREES);
      assert WholeTurns(DEGREES) by {
        assert DEGREES / DEGREES == 1.0;
      }
      assert WholeTurns(result - n) by {
        WholeTurnsAdd(result - r1, (r1 + DEGREES) - n);
        assert (result - r1) + ((r1 + DEGREES) - n) == (result - n) + DEGREES;
        assert WholeTurns(-DEGREES) by {
          assert -DEGREES / DEGREES == -1.0;
        }
        WholeTurnsAdd((result - n) + DEGREES, -DEGREES);
      }
      n
  }

  /** A negative value less than a full turn in magnitude, such as every negative angle that
      `atan2` produces, is normalised by adding one turn; the result lies strictly inside the
      circle. */
  lemma NormalizeNegative(r: real)
    requires -DEGREES < r < 0.0
    ensures Normalize(r) == r + DEGREES
    ensures 0.0 < Normalize(r) < DEGREES
  {
    assert r - r == 0.0;
    CompassRemUnique(r, r);
    assert (r + DEGREES) - (r + DEGREES) == 0.0;
    CompassRemUnique(r + DEGREES, r + DEGREES);
  }

  /** For a bearing in the range of `atan2` in degrees, `[-180, 180]`, normalisation adds a turn
      to the negative values and keeps the others, and never yields 360. */
  lemma NormalizeBearing(r: real)
    requires -180.0 <= r <= 180.0
    ensures Normalize(r) == if r < 0.0 then r + DEGREES else r
    ensures 0.0 <= Normalize(r) < DEGREES
  {
    if r < 0.0 {
      NormalizeNegative(r);
    }
  }

  /** Apart from the single value 360, which passes through unchanged, normalisation is the
      floored (Euclidean) reduction of the angle into `[0, 360)`. */
  lemma NormalizeIsFlooredModulo(r: real)
    requires r != DEGREES
    ensures Normalize(r) == r - DEGREES * (r / DEGREES).Floor as real
  {
    var k := (r / DEGREES).Floor;
    var m := r - DEGREES * k as real;
    var n := Normalize(r);
    assert WholeTurns(r - m) by {
      assert (r - m) / DEGREES == k as real;
    }
    WholeTurnsSub(r - m, r - n);
    assert (r - m) - (r - n) == n - m;
    WholeTurnsSmall(n - m);
  }

  /** `getCardinalDirectionInDegrees`: a missing point, or two equal points, give the defined
      fallback 0.0; otherwise the bearing `azimuth(start, end)` (the method's `atan2`
      computation, converted to degrees) is normalised into `[0, 360]`. */
  function DirectionInDegrees(start: Option<LatLng>, end: Option<LatLng>,
                              azimuth: (LatLng, LatLng) -> real): (deg: real)
    ensures 0.0 <= deg <= DEGREES
    ensures start.None? || end.None? || start == end ==> deg == 0.0
    ensures start.Some? && end.Some? && start != end ==>
              deg == Normalize(azimuth(start.value, end.value))
    ensures start.Some? && end.Some? && start != end ==>
              WholeTurns(azimuth(start.value, end.value) - deg)
  {
    if start.None? || end.None? || start == end then 0.0
    else Normalize(azimuth(start.value, end.value))
  }

  /** `getCardinalDirection`: the degree value is truncated by `intValue()` and classified by
      the sector chain. The `"?"` fallback is never returned, every answer is one of the eight
      labels, and degenerate input is labelled North. */
  function GetCardinalDirection(start: Option<LatLng>, end: Option<LatLng>,
                                azimuth: (LatLng, LatLng) -> real): (name: string)
    ensures name != UNKNOWN
    ensures name == Classify(IntValue(DirectionInDegrees(start, end, azimuth))).value.Name()
    ensures start.None? || end.None? || start == end ==> name == NORTH
  {
    Label(IntValue(DirectionInDegrees(start, end, azimuth)))
  }

  /** On the normalised range `intValue()` rounds toward zero from above, so it is the floor. */
  lemma TruncationIsFloor(x: real)
    requires 0.0 <= x <= DEGREES
    ensures IntValue(x) == x.Floor
    ensures 0 <= IntValue(x) <= COMPASS_DEGREES
  {
  }

  /** Every value of `[k, k + 1)` gets the label of the whole degree `k`. For negative `k`,
      truncation may move the value up to `k + 1`, but every such value is North anyway. */
  lemma SameLabelWithinDegree(x: real, k: int)
    requires INT_MIN <= k < INT_MAX
    requires k as real <= x < (k + 1) as real
    ensures Label(IntValue(x)) == Label(k)
  {
  }

  /** A normalised value of exactly 360 is labelled North. */
  lemma FullTurnIsNorth()
    ensures Label(IntValue(DEGREES)) == NORTH
  {
  }

  /** End to end, for two distinct points whose bearing lies in the range of `atan2`: the
      calculator returns the label of `dir` exactly when the whole part of the bearing, with
      one turn added to negative bearings, lies in `dir`'s sector of the table. */
  lemma DirectionOfBearing(start: LatLng, end: LatLng, azimuth: (LatLng, LatLng) -> real,
                           dir: Direction)
    requires start != end
    requires -180.0 <= azimuth(start, end) <= 180.0
    ensures var b := azimuth(start, end);
            GetCardinalDirection(Some(start), Some(end), azimuth) == dir.Name() <==>
            InSector(dir, (if b < 0.0 then b + DEGREES else b).Floor)
  {
    var b := azimuth(start, end);
    NormalizeBearing(b);
    var n := DirectionInDegrees(Some(start), Some(end), azimuth);
    assert n == if b < 0.0 then b + DEGREES else b;
    TruncationIsFloor(n);
    LabelMatchesTable(n.Floor, dir);
  }
}

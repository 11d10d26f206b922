/** The eight compass points and the classifier that maps a whole number of degrees to one of
    them: the sector constants and the if/else chain of `getCardinalDirection`. */
module Compass {

  const COMPASS_DEGREES: int := 360

  const NORTH: string := "North"
  const NORTH_EAST: string := "NorthEast"
  const EAST: string := "East"
  const SOUTH_EAST: string := "SouthEast"
  const SOUTH: string := "South"
  const SOUTH_WEST: string := "SouthWest"
  const WEST: string := "West"
  const NORTH_WEST: string := "NorthWest"

  /** The label returned when no sector test matches. */
  const UNKNOWN: string := "?"

  const NORTHWEST_MAX: int := 337
  const NORTHEAST_MIN: int := 23
  const NORTHEAST_MAX: int := 67
  const SOUTHEAST_MIN: int := 112
  const SOUTHEAST_MAX: int := 157
  const SOUTHWEST_MIN: int := 202
  const SOUTHWEST_MAX: int := 247
  const NORTHWEST_MIN: int := 292

  datatype Option<T> = None | Some(value: T)

  /** The eight cardinal and intercardinal points, in clockwise order from North. */
  datatype Direction = North | NorthEast | East | SouthEast | South | SouthWest | West | NorthWest
  {
    /** The label the calculator returns for this point. */
    function Name(): string {
      match this
      case North => NORTH
      case NorthEast => NORTH_EAST
      case East => EAST
      case SouthEast => SOUTH_EAST
      case South => SOUTH
      case SouthWest => SOUTH_WEST
      case West => WEST
      case NorthWest => NORTH_WEST
    }

    /** Position in clockwise order, North being 0. */
    function Index(): nat {
      match this
      case North => 0
      case NorthEast => 1
      case East => 2
      case SouthEast => 3
      case South => 4
      case SouthWest => 5
      case West => 6
      case NorthWest => 7
    }

    /** The next point clockwise. */
    function Next(): (d: Direction)
      ensures d.Index() == (Index() + 1) % 8
    {
      match this
      case North => NorthEast
      case NorthEast => East
      case East => SouthEast
      case SouthEast => South
      case South => SouthWest
      case SouthWest => West
      case West => NorthWest
      case NorthWest => North
    }

    /** The first whole degree of this point's sector (North's sector wraps through 0). */
    function Lower(): int {
      match this
      case North => NORTHWEST_MAX
      case NorthEast => NORTHEAST_MIN
      case East => NORTHEAST_MAX
      case SouthEast => SOUTHEAST_MIN
      case South => SOUTHEAST_MAX
      case SouthWest => SOUTHWEST_MIN
      case West => SOUTHWEST_MAX
      case NorthWest => NORTHWEST_MIN
    }
  }

  /** The sector table: whole degree `d` of the circle `[0, 360)` lies in the sector of `dir`,
      which runs from `dir.Lower()` up to, but not including, the next point's lower bound,
      wrapping through 0 for North. */
  predicate InSector(dir: Direction, d: int) {
    var lo, hi := dir.Lower(), dir.Next().Lower();
    0 <= d < COMPASS_DEGREES &&
    if lo < hi then lo <= d < hi else lo <= d || d < hi
  }

  /** The if/else chain of `getCardinalDirection` on the truncated bearing `d`; `None` stands for
      the final branch, which logs a warning and returns `"?"`. Every integer gets a point:
      those outside the circle fall to the first test and are North. */
  function Classify(d: int): (r: Option<Direction>)
    ensures r.Some?
    ensures 0 <= d < COMPASS_DEGREES ==> InSector(r.value, d)
    ensures d < 0 || COMPASS_DEGREES <= d ==> r == Some(North)
  {
    if d >= NORTHWEST_MAX || d < NORTHEAST_MIN then Some(North)
    else if d >= NORTHEAST_MIN && d < NORTHEAST_MAX then Some(NorthEast)
    else if d >= NORTHEAST_MAX && d < SOUTHEAST_MIN then Some(East)
    else if d >= SOUTHEAST_MIN && d < SOUTHEAST_MAX then Some(SouthEast)
    else if d >= SOUTHEAST_MAX && d < SOUTHWEST_MIN then Some(South)
    else if d >= SOUTHWEST_MIN && d < SOUTHWEST_MAX then Some(SouthWest)
    else if d >= SOUTHWEST_MAX && d < NORTHWEST_MIN then Some(West)
    else if d >= NORTHWEST_MIN && d < NORTHWEST_MAX then Some(NorthWest)
    else None
  }

  /** The string `getCardinalDirection` returns for the truncated bearing `d`. */
  function Label(d: int): (s: string)
    ensures s != UNKNOWN
    ensures s == Classify(d).value.Name()
  {
    match Classify(d)
    case Some(dir) => dir.Name()
    case None => UNKNOWN
  }

  /** The eight labels are distinct, so a label names exactly one point. */
  lemma NameInjective(a: Direction, b: Direction)
    ensures a.Name() == b.Name() <==> a == b
  {
    if a != b {
      var x, y := a.Name(), b.Name();
      assert |x| != |y| || x[0] != y[0] || x[5] != y[5];
    }
  }

  /** Each whole degree of the circle lies in exactly one sector of the table. */
  lemma SectorsPartition(d: int, a: Direction, b: Direction)
    requires InSector(a, d) && InSector(b, d)
    ensures a == b
  {
  }

  /** The chain agrees with the sector table, in both directions: on the circle,
      `getCardinalDirection` returns the label of `dir` exactly when `d` lies in `dir`'s sector. */
  lemma LabelMatchesTable(d: int, dir: Direction)
    requires 0 <= d < COMPASS_DEGREES
    ensures Label(d) == dir.Name() <==> InSector(dir, d)
  {
    var c := Classify(d).value;
    NameInjective(c, dir);
    if InSector(dir, d) {
      SectorsPartition(d, c, dir);
    }
  }

  /** The point just before `dir` in clockwise order. */
  function Previous(dir: Direction): (p: Direction)
    ensures p.Next() == dir
  {
    match dir
    case North => NorthWest
    case NorthEast => North
    case East => NorthEast
    case SouthEast => East
    case South => SouthEast
    case SouthWest => South
    case West => SouthWest
    case NorthWest => West
  }

  /** The boundaries are exact and half-open: the lower bound of each sector gets that sector's
      label and the degree just below it gets the previous point's label. */
  lemma Boundaries(dir: Direction)
    ensures Label(dir.Lower()) == dir.Name()
    ensures Label(dir.Lower() - 1) == Previous(dir).Name()
  {
  }

  /** The boundary values on both sides of the first, second and last sector boundary. */
  lemma BoundaryExamples()
    ensures Label(22) == NORTH && Label(23) == NORTH_EAST
    ensures Label(66) == NORTH_EAST && Label(67) == EAST
    ensures Label(336) == NORTH_WEST && Label(337) == NORTH
    ensures Label(-1) == NORTH && Label(360) == NORTH
  {
  }

  /** Moving one degree clockwise either keeps the point or advances it to the next one. */
  lemma StepAdvances(d: int)
    ensures Classify(d + 1) == Classify(d) || Classify(d + 1) == Some(Classify(d).value.Next())
  {
  }

  /** From 0 up to the last degree of North-West the point never moves backwards: the clockwise
      index is monotone in `d`. */
  lemma Monotone(d1: int, d2: int)
    requires 0 <= d1 <= d2 < NORTHWEST_MAX
    ensures Classify(d1).value.Index() <= Classify(d2).value.Index()
  {
  }

  /** The number of whole degrees in `[lo, hi)` that the chain assigns to `dir`. */
  function CountIn(dir: Direction, lo: int, hi: int): nat
    decreases hi - lo
  {
    if hi <= lo then 0
    else (if Classify(lo) == Some(dir) then 1 else 0) + CountIn(dir, lo + 1, hi)
  }

  /** Counting over `[lo, hi)` is counting over `[lo, mid)` and then over `[mid, hi)`. */
  lemma {:induction false} CountSplit(dir: Direction, lo: int, mid: int, hi: int)
    requires lo <= mid <= hi
    ensures CountIn(dir, lo, hi) == CountIn(dir, lo, mid) + CountIn(dir, mid, hi)
    decreases mid - lo
  {
    if lo < mid {
      CountSplit(dir, lo + 1, mid, hi);
    }
  }

  /** On a run of degrees that all get `dir`, the count is the run's length. */
  lemma {:induction false} CountAll(dir: Direction, lo: int, hi: int)
    requires lo <= hi
    requires forall d :: lo <= d < hi ==> Classify(d) == Some(dir)
    ensures CountIn(dir, lo, hi) == hi - lo
    decreases hi - lo
  {
    if lo < hi {
      CountAll(dir, lo + 1, hi);
    }
  }

  /** On a run of degrees none of which gets `dir`, the count is zero. */
  lemma {:induction false} CountNone(dir: Direction, lo: int, hi: int)
    requires forall d :: lo <= d < hi ==> Classify(d) != Some(dir)
    ensures CountIn(dir, lo, hi) == 0
    decreases hi - lo
  {
    if lo < hi {
      CountNone(dir, lo + 1, hi);
    }
  }

  /** Below its own sector, a point other than North gets no degree of the circle. */
  lemma BelowSectorNone(dir: Direction)
    requires dir != North
    ensures 0 < dir.Lower()
    ensures CountIn(dir, 0, dir.Lower()) == 0
  {
    forall d | 0 <= d < dir.Lower()
      ensures Classify(d) != Some(dir)
    {
      assert !InSector(dir, d);
    }
    CountNone(dir, 0, dir.Lower());
  }

  /** Above its own sector, a point other than North gets no degree of the circle. */
  lemma AboveSectorNone(dir: Direction)
    requires dir != North
    ensures dir.Next().Lower() <= COMPASS_DEGREES
    ensures CountIn(dir, dir.Next().Lower(), COMPASS_DEGREES) == 0
  {
    forall d | dir.Next().Lower() <= d < COMPASS_DEGREES
      ensures Classify(d) != Some(dir)
    {
      assert !InSector(dir, d);
    }
    CountNone(dir, dir.Next().Lower(), COMPASS_DEGREES);
  }

  /** Inside its own sector, a point other than North gets every degree. */
  lemma InsideSectorAll(dir: Direction)
    requires dir != North
    ensures dir.Lower() < dir.Next().Lower()
    ensures CountIn(dir, dir.Lower(), dir.Next().Lower()) == dir.Next().Lower() - dir.Lower()
  {
    forall d | dir.Lower() <= d < dir.Next().Lower()
      ensures Classify(d) == Some(dir)
    {
      SectorsPartition(d, Classify(d).value, dir);
    }
    CountAll(dir, dir.Lower(), dir.Next().Lower());
  }

  /** A sector that does not wrap through 0 holds `Next().Lower() - Lower()` degrees of the
      circle. */
  lemma StraightSectorWidth(dir: Direction)
    requires dir.Lower() < dir.Next().Lower()
    ensures CountIn(dir, 0, COMPASS_DEGREES) == dir.Next().Lower() - dir.Lower()
  {
    BelowSectorNone(dir);
    InsideSectorAll(dir);
    AboveSectorNone(dir);
    CountThreeRuns(dir, 0, dir.Lower(), dir.Next().Lower(), COMPASS_DEGREES);
  }

  /** Counting over three adjacent runs `[a, b)`, `[b, c)` and `[c, d)`. */
  lemma CountThreeRuns(dir: Direction, a: int, b: int, c: int, d: int)
    requires a <= b <= c <= d
    ensures CountIn(dir, a, d) == CountIn(dir, a, b) + CountIn(dir, b, c) + CountIn(dir, c, d)
  {
    CountSplit(dir, a, b, d);
    CountSplit(dir, b, c, d);
  }

  /** A sector that wraps through 0 holds the degrees from its lower bound up to 360 and those
      from 0 up to the next point's lower bound. */
  lemma WrappingSectorWidth(dir: Direction)
    requires dir.Next().Lower() < dir.Lower()
    ensures CountIn(dir, 0, COMPASS_DEGREES) ==
            dir.Next().Lower() + (COMPASS_DEGREES - dir.Lower())
  {
    var lo, hi := dir.Lower(), dir.Next().Lower();
    assert dir == North;
    forall d | 0 <= d < hi || lo <= d < COMPASS_DEGREES
      ensures Classify(d) == Some(dir)
    {
    }
    forall d | hi <= d < lo
      ensures Classify(d) != Some(dir)
    {
    }
    CountAll(dir, 0, hi);
    CountNone(dir, hi, lo);
    CountAll(dir, lo, COMPASS_DEGREES);
    CountThreeRuns(dir, 0, hi, lo, COMPASS_DEGREES);
  }

  /** The widths of the eight sectors on the circle: North spans 46 whole degrees (23 on each
      side of 0), North-East 44, and each of the other six 45. Together they cover all 360. */
  lemma SectorWidths(dir: Direction)
    ensures CountIn(dir, 0, COMPASS_DEGREES) ==
            match dir
            case North => 46
            case NorthEast => 44
            case _ => 45
  {
    if dir == North {
      WrappingSectorWidth(dir);
    } else {
      StraightSectorWidth(dir);
    }
  }
}

/** Angle arithmetic on ecliptic longitudes: normalisation into [0, 360) and the shortest-arc orb. */
module Angles {

  const FullTurn: real := 360.0
  const HalfTurn: real := 180.0

  /** A longitude as the ephemeris reports it. */
  predicate InCircle(x: real) {
    0.0 <= x < FullTurn
  }

  /** `a` and `b` differ by a whole number of turns, so they name the same direction. */
  predicate SameDirection(a: real, b: real) {
    var q := (a - b) / FullTurn;
    q == q.Floor as real
  }

  /** The Swiss Ephemeris `degnorm` contract: the direction of `x` as a longitude in [0, 360). */
  function DegNorm(x: real): (r: real)
    ensures InCircle(r)
    ensures SameDirection(x, r)
  {
    x - FullTurn * (x / FullTurn).Floor as real
  }

  /** A longitude in [0, 360) naming the same direction as `x` is the normalised `x`. */
  lemma DegNormUnique(x: real, y: real)
    requires InCircle(y)
    requires SameDirection(x, y)
    ensures DegNorm(x) == y
  {
    var r := DegNorm(x);
    var m := ((x - r) / FullTurn).Floor;
    var n := ((x - y) / FullTurn).Floor;
    assert x - r == FullTurn * m as real;
    assert x - y == FullTurn * n as real;
    assert y - r == FullTurn * (m - n) as real;
  }

  /** Normalising twice is normalising once, and a longitude already in [0, 360) is left alone. */
  lemma DegNormIdempotent(x: real)
    ensures DegNorm(DegNorm(x)) == DegNorm(x)
    ensures InCircle(x) ==> DegNorm(x) == x
  {
    DegNormUnique(DegNorm(x), DegNorm(x));
    if InCircle(x) {
      DegNormUnique(x, x);
    }
  }

  function Abs(x: real): real {
    if x < 0.0 then -x else x
  }

  /**
   * The orb of the scan loop: `abs(a - b)`, replaced by `360 - orb` when it exceeds 180.
   * For two longitudes in [0, 360) it lies in [0, 180].
   */
  function Orb(a: real, b: real): (r: real)
    ensures InCircle(a) && InCircle(b) ==> 0.0 <= r <= HalfTurn
  {
    var d := Abs(a - b);
    if d > HalfTurn then FullTurn - d else d
  }

  /** The length of the path from `b` to `a` that goes `k` extra whole turns round the circle. */
  function ArcLength(a: real, b: real, k: int): real {
    Abs(a - b + FullTurn * k as real)
  }

  /** The orb does not depend on which of the two points is named first. */
  lemma OrbSymmetric(a: real, b: real)
    ensures Orb(a, b) == Orb(b, a)
  {
  }

  /**
   * The orb is the shortest arc: no path between the two directions is shorter,
   * and one of the paths with at most one extra turn has exactly that length.
   */
  lemma OrbIsShortestArc(a: real, b: real)
    requires InCircle(a) && InCircle(b)
    ensures forall k: int :: Orb(a, b) <= ArcLength(a, b, k)
    ensures exists k: int :: -1 <= k <= 1 && Orb(a, b) == ArcLength(a, b, k)
  {
    var d := a - b;
    forall k: int
      ensures Orb(a, b) <= ArcLength(a, b, k)
    {
      if k >= 1 {
        assert a - b + FullTurn * k as real >= d + FullTurn;
      } else if k <= -1 {
        assert a - b + FullTurn * k as real <= d - FullTurn;
      }
    }
    if Abs(d) <= HalfTurn {
      assert Orb(a, b) == ArcLength(a, b, 0);
    } else if d > 0.0 {
      assert Orb(a, b) == ArcLength(a, b, -1);
    } else {
      assert Orb(a, b) == ArcLength(a, b, 1);
    }
  }

  /** Two longitudes in [0, 360) have orb 0 exactly when they are equal. */
  lemma OrbZeroIff(a: real, b: real)
    requires InCircle(a) && InCircle(b)
    ensures Orb(a, b) == 0.0 <==> a == b
  {
  }
}

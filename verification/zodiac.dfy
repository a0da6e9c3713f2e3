/** The zodiac sign resolver: a longitude in degrees is put into one of twelve 30-degree signs. */
module Zodiac {

  /** Python's `int(x)` on a number: truncation toward zero (not floor). */
  function Trunc(x: real): (r: int)
    ensures x >= 0.0 ==> r as real <= x < r as real + 1.0
    ensures x < 0.0 ==> r as real - 1.0 < x <= r as real
  {
    if x >= 0.0 then x.Floor else -((-x).Floor)
  }

  const SignWidth: real := 30.0

  /** The sign names, in order from 0 degrees. */
  const SignNames: seq<string> :=
    ["Aries", "Taurus", "Gemini", "Cancer", "Leo", "Virgo",
     "Libra", "Scorpio", "Sagittarius", "Capricorn", "Aquarius", "Pisces"]

  /**
   * The index computed by `get_zodiac_sign`: `int(longitude / 30) % 12`.
   * With a positive divisor Dafny's `%` agrees with Python's (the result is never negative).
   * On [0, 360) the index names the 30-degree bucket the longitude falls in.
   */
  function SignIndex(longitude: real): (r: int)
    ensures 0 <= r < 12
    ensures 0.0 <= longitude < 360.0 ==>
              SignWidth * r as real <= longitude < SignWidth * (r + 1) as real
  {
    Trunc(longitude / SignWidth) % 12
  }

  /** `get_zodiac_sign`: the name of the sign of a longitude. */
  function ZodiacSign(longitude: real): (r: string)
    ensures r in SignNames
    ensures 0.0 <= longitude < 30.0 ==> r == "Aries"
    ensures 330.0 <= longitude < 360.0 ==> r == "Pisces"
  {
    SignNames[SignIndex(longitude)]
  }

  /** The floor-based bucketing `floor(longitude / 30) mod 12`, a reference to compare with. */
  function FloorSignIndex(longitude: real): (r: int)
    ensures 0 <= r < 12
  {
    (longitude / SignWidth).Floor % 12
  }

  /** No two signs share a name, so comparing names is comparing indices. */
  lemma SignNamesDistinct()
    ensures |SignNames| == 12
    ensures forall i, j :: 0 <= i < j < |SignNames| ==> SignNames[i] != SignNames[j]
  {
  }

  /** Two longitudes have the same sign name exactly when they have the same sign index. */
  lemma SameSignIff(a: real, b: real)
    ensures ZodiacSign(a) == ZodiacSign(b) <==> SignIndex(a) == SignIndex(b)
  {
    SignNamesDistinct();
    var i, j := SignIndex(a), SignIndex(b);
    if i != j {
      if i < j {
        assert SignNames[i] != SignNames[j];
      } else {
        assert SignNames[j] != SignNames[i];
      }
    }
  }

  /** For non-negative longitudes truncation and floor agree. */
  lemma SignMatchesFloorWhenNonNegative(longitude: real)
    requires longitude >= 0.0
    ensures SignIndex(longitude) == FloorSignIndex(longitude)
  {
  }

  /** Just below 0 degrees truncation gives Aries where the floor-based bucketing gives Pisces. */
  lemma SignTruncatesBelowZero(longitude: real)
    requires -30.0 < longitude < 0.0
    ensures SignIndex(longitude) == 0 && ZodiacSign(longitude) == "Aries"
    ensures FloorSignIndex(longitude) == 11
  {
    assert (longitude / SignWidth).Floor == -1;
  }

  /** One whole turn added to a non-negative longitude moves its sign index by twelve buckets, that is, not at all. */
  lemma SignShiftOneTurn(longitude: real)
    requires longitude >= 0.0
    ensures SignIndex(longitude + 360.0) == SignIndex(longitude)
  {
    var x := longitude / SignWidth;
    assert (longitude + 360.0) / SignWidth == x + 12.0;
    assert (x + 12.0).Floor == x.Floor + 12;
  }

  /** Adding whole turns to a non-negative longitude leaves its sign unchanged. */
  lemma {:induction false} SignPeriodic(longitude: real, k: nat)
    requires longitude >= 0.0
    ensures SignIndex(longitude + 360.0 * k as real) == SignIndex(longitude)
  {
    if k > 0 {
      var prev := longitude + 360.0 * (k - 1) as real;
      SignPeriodic(longitude, k - 1);
      SignShiftOneTurn(prev);
      assert longitude + 360.0 * k as real == prev + 360.0;
    }
  }

  /** With truncation, subtracting a whole turn can change the sign: 10 is Aries, -350 is Taurus. */
  lemma SignNotPeriodicBelowZero()
    ensures SignIndex(10.0) == 0
    ensures SignIndex(10.0 - 360.0) == 1
  {
    assert (350.0 / SignWidth).Floor == 11;
  }
}

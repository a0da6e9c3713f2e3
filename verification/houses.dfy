/** The house locator: which of the twelve houses a longitude falls in, given the house cusps. */
module Houses {
  import opened Wrappers

  const HouseCount: nat := 12

  /** The error `find_house` raises when the cusp list has neither 12 nor 13 entries. */
  datatype CuspError = CuspCount(received: nat)

  /** The cusp list is of a shape `find_house` accepts. */
  predicate CuspCountOk(cusps: seq<real>) {
    |cusps| == 12 || |cusps| == 13
  }

  /**
   * The twelve cusp longitudes: a 13-entry list carries an unused slot at index 0,
   * which is dropped; any length other than 12 or 13 is an error.
   */
  function CuspLongitudes(cusps: seq<real>): (r: Result<seq<real>, CuspError>)
    ensures r.Failure? <==> !CuspCountOk(cusps)
    ensures r.Failure? ==> r.error == CuspCount(|cusps|)
    ensures r.Success? ==> |r.value| == HouseCount && r.value == ActiveCusps(cusps)
  {
    if |cusps| == 13 then Success(cusps[1..])
    else if |cusps| == 12 then Success(cusps)
    else Failure(CuspCount(|cusps|))
  }

  /** The twelve cusps `find_house` scans: the list without its leading slot when it has one. */
  function ActiveCusps(cusps: seq<real>): seq<real>
    requires CuspCountOk(cusps)
  {
    cusps[|cusps| - 12..]
  }

  /**
   * The half-open angular interval from `start` to `end`: `[start, end)` when it does not
   * pass 0 degrees, and everything from `start` on or before `end` when it does.
   */
  predicate InArc(longitude: real, start: real, end: real) {
    if start < end then start <= longitude < end
    else longitude >= start || longitude < end
  }

  /** The longitude lies in house `i + 1`, the interval from cusp `i` to the next cusp round the circle. */
  predicate InHouse(longitude: real, c: seq<real>, i: int)
    requires |c| == HouseCount && 0 <= i < HouseCount
  {
    InArc(longitude, c[i], c[(i + 1) % HouseCount])
  }

  /** The scan of `find_house` from house `i + 1` on: the first matching house number, if any. */
  function ScanHouses(longitude: real, c: seq<real>, i: nat): (r: Option<nat>)
    requires |c| == HouseCount && i <= HouseCount
    ensures r.Some? ==> i < r.value <= HouseCount && InHouse(longitude, c, r.value - 1)
    ensures r.Some? ==> forall j :: i <= j < r.value - 1 ==> !InHouse(longitude, c, j)
    ensures r.None? ==> forall j :: i <= j < HouseCount ==> !InHouse(longitude, c, j)
    decreases HouseCount - i
  {
    if i == HouseCount then None
    else if InHouse(longitude, c, i) then Some(i + 1)
    else ScanHouses(longitude, c, i + 1)
  }

  /**
   * `find_house`: the first house (1 to 12) whose interval holds the longitude, `None` when
   * no interval does, and a failure when the cusp list has the wrong length.
   */
  function FindHouse(longitude: real, cusps: seq<real>): (r: Result<Option<nat>, CuspError>)
    ensures r.Failure? <==> !CuspCountOk(cusps)
    ensures r.Failure? ==> r.error == CuspCount(|cusps|)
    ensures r.Success? && r.value.Some? ==>
              var h := r.value.value;
              var c := ActiveCusps(cusps);
              && 1 <= h <= HouseCount
              && InHouse(longitude, c, h - 1)
              && forall j :: 0 <= j < h - 1 ==> !InHouse(longitude, c, j)
    ensures r.Success? && r.value.None? ==>
              forall j :: 0 <= j < HouseCount ==> !InHouse(longitude, ActiveCusps(cusps), j)
  {
    match CuspLongitudes(cusps)
    case Failure(e) => Failure(e)
    case Success(c) => Success(ScanHouses(longitude, c, 0))
  }

  /** A 13-entry list is located exactly as the 12-entry list without its leading slot. */
  lemma FindHouseDropsPlaceholder(longitude: real, cusps: seq<real>)
    requires |cusps| == 13
    ensures FindHouse(longitude, cusps) == FindHouse(longitude, cusps[1..])
  {
  }

  /**
   * Writing P(x) for `longitude < x`: when the intervals of houses 1 to `k` all miss the
   * longitude, P never turns on along cusps 0 to `k`, and if it is the same at both ends
   * no interval in between wraps, so the cusps ascend strictly from cusp 0 to cusp `k`.
   */
  lemma {:induction false} MissedPrefix(longitude: real, c: seq<real>, k: nat)
    requires |c| == HouseCount && k < HouseCount
    requires forall j :: 0 <= j < k ==> !InHouse(longitude, c, j)
    ensures longitude < c[k] ==> longitude < c[0]
    ensures 0 < k && (longitude < c[0] ==> longitude < c[k]) ==> c[0] < c[k]
  {
    if k > 0 {
      assert !InHouse(longitude, c, k - 1);
      assert (k - 1 + 1) % HouseCount == k;
      MissedPrefix(longitude, c, k - 1);
    }
  }

  /**
   * Any twelve cusps leave no gap: every longitude lies in some house interval.
   * If houses 1 to 11 all miss, P is carried unchanged round to cusp 11 and the cusps ascend
   * up to it, so the last interval, from cusp 11 back to cusp 0, wraps and holds the longitude.
   */
  lemma {:induction false} SomeHouseHolds(longitude: real, c: seq<real>)
    requires |c| == HouseCount
    ensures exists j :: 0 <= j < HouseCount && InHouse(longitude, c, j)
  {
    if forall j :: 0 <= j < 11 ==> !InHouse(longitude, c, j) {
      MissedPrefix(longitude, c, 11);
      assert (11 + 1) % HouseCount == 0;
      assert InHouse(longitude, c, 11);
    }
  }

  /**
   * `find_house` accepts every 12- or 13-entry cusp list and always finds a house:
   * its `None` outcome cannot occur, whatever the cusps and the longitude.
   */
  lemma FindHouseTotal(longitude: real, cusps: seq<real>)
    requires CuspCountOk(cusps)
    ensures FindHouse(longitude, cusps).Success?
    ensures FindHouse(longitude, cusps).value.Some?
  {
    SomeHouseHolds(longitude, ActiveCusps(cusps));
  }

  /**
   * Cusps that ascend strictly round the circle except at the single wrap after cusp `w`
   * (the shape an ascending chart has).
   */
  predicate AscendingWithWrap(c: seq<real>, w: int)
    requires |c| == HouseCount
  {
    && 0 <= w < HouseCount
    && forall i :: 0 <= i < HouseCount && i != w ==> Ascends(c, i)
  }

  /** Cusp `i` lies strictly below the next cusp round the circle. */
  predicate Ascends(c: seq<real>, i: int)
    requires |c| == HouseCount && 0 <= i < HouseCount
  {
    c[i] < c[(i + 1) % HouseCount]
  }

  /** The cusp `p` places after the wrap. */
  function Rotated(w: nat, p: nat): (r: nat)
    requires w < HouseCount && p < HouseCount
    ensures r < HouseCount
  {
    (w + 1 + p) % HouseCount
  }

  /** The cusp after position `p` is at position `p + 1`, and position 11 is the wrap itself. */
  lemma RotatedStep(w: nat, p: nat)
    requires w < HouseCount && p < HouseCount
    ensures p < 11 ==> (Rotated(w, p) + 1) % HouseCount == Rotated(w, p + 1)
    ensures p == 11 ==> Rotated(w, p) == w && (w + 1) % HouseCount == Rotated(w, 0)
  {
  }

  /** Counted from just after the wrap, the cusps ascend strictly. */
  lemma {:induction false} RotatedAscending(c: seq<real>, w: nat, p: nat, q: nat)
    requires |c| == HouseCount && AscendingWithWrap(c, w)
    requires p < q < HouseCount
    ensures c[Rotated(w, p)] < c[Rotated(w, q)]
  {
    var i := Rotated(w, q - 1);
    RotatedStep(w, q - 1);
    assert Ascends(c, i);
    if p < q - 1 {
      RotatedAscending(c, w, p, q - 1);
    }
  }

  /** Which position after the wrap a cusp index sits at. */
  function Position(w: nat, i: nat): (p: nat)
    requires w < HouseCount && i < HouseCount
    ensures p < HouseCount && Rotated(w, p) == i
  {
    (i + HouseCount - 1 - w) % HouseCount
  }

  /** For ascending cusps at most one house interval holds any longitude. */
  lemma HouseUnique(longitude: real, c: seq<real>, w: nat, i: nat, j: nat)
    requires |c| == HouseCount && AscendingWithWrap(c, w)
    requires i < HouseCount && j < HouseCount
    requires InHouse(longitude, c, i) && InHouse(longitude, c, j)
    ensures i == j
  {
    var p, q := Position(w, i), Position(w, j);
    if p < q {
      UniqueOrdered(longitude, c, w, p, q);
    } else if q < p {
      UniqueOrdered(longitude, c, w, q, p);
    }
  }

  /** The intervals at positions `p < q` after the wrap do not overlap. */
  lemma UniqueOrdered(longitude: real, c: seq<real>, w: nat, p: nat, q: nat)
    requires |c| == HouseCount && AscendingWithWrap(c, w)
    requires p < q < HouseCount
    ensures !(InHouse(longitude, c, Rotated(w, p)) && InHouse(longitude, c, Rotated(w, q)))
  {
    var ip, iq := Rotated(w, p), Rotated(w, q);
    var a, a', b := c[ip], c[Rotated(w, p + 1)], c[iq];
    RotatedStep(w, p);
    RotatedAscending(c, w, p, p + 1);
    assert a < a';
    assert a' <= b by {
      if p + 1 < q {
        RotatedAscending(c, w, p + 1, q);
      }
    }
    if InHouse(longitude, c, ip) {
      assert a <= longitude < a';
      if q < 11 {
        RotatedStep(w, q);
        RotatedAscending(c, w, q, q + 1);
        assert !InArc(longitude, b, c[Rotated(w, q + 1)]);
      } else {
        var b' := c[Rotated(w, 0)];
        RotatedStep(w, q);
        assert b' <= a by {
          if p > 0 {
            RotatedAscending(c, w, 0, p);
          }
        }
        assert !InArc(longitude, b, b');
      }
    }
  }

  /**
   * For ascending cusps the houses partition the circle: `find_house` returns house `h`
   * and the longitude lies in house `h` and in no other.
   */
  lemma HousesPartition(longitude: real, cusps: seq<real>, w: nat)
    requires |cusps| == HouseCount && AscendingWithWrap(cusps, w)
    ensures FindHouse(longitude, cusps).Success? && FindHouse(longitude, cusps).value.Some?
    ensures forall j :: 0 <= j < HouseCount ==>
              (InHouse(longitude, cusps, j) <==> j == FindHouse(longitude, cusps).value.value - 1)
  {
    FindHouseTotal(longitude, cusps);
    var h := FindHouse(longitude, cusps).value.value;
    assert ActiveCusps(cusps) == cusps;
    forall j | 0 <= j < HouseCount && InHouse(longitude, cusps, j)
      ensures j == h - 1
    {
      HouseUnique(longitude, cusps, w, j, h - 1);
    }
  }
}

/** The Part of Fortune and the gate that decides, per body, whether a conjunction line is emitted. */
module Conjunction {
  import opened Angles
  import opened Zodiac

  /** Largest orb that counts as a conjunction in wide mode, in degrees. */
  const WideOrb: real := 6.0
  /** Largest orb reported in exact mode, in degrees. */
  const ExactOrb: real := 1.0

  /** The Part of Fortune: Moon + Ascendant - Sun, normalised into [0, 360). */
  function FortuneLongitude(sun: real, moon: real, ascendant: real): (r: real)
    ensures InCircle(r)
    ensures SameDirection(moon + ascendant - sun, r)
  {
    DegNorm(moon + ascendant - sun)
  }

  /** Only the Moon's elongation from the Sun matters: turning both by the same angle leaves the point. */
  lemma FortuneDependsOnElongation(sun: real, moon: real, ascendant: real, d: real)
    ensures FortuneLongitude(sun + d, moon + d, ascendant) == FortuneLongitude(sun, moon, ascendant)
  {
  }

  /** Whole turns added to the Ascendant do not move the point. */
  lemma {:induction false} FortuneIgnoresWholeTurns(sun: real, moon: real, ascendant: real, k: int)
    ensures FortuneLongitude(sun, moon, ascendant + FullTurn * k as real)
            == FortuneLongitude(sun, moon, ascendant)
  {
    var x := moon + ascendant - sun;
    var r := FortuneLongitude(sun, moon, ascendant);
    var m := ((x - r) / FullTurn).Floor;
    assert x - r == FullTurn * m as real;
    assert (x + FullTurn * k as real - r) / FullTurn == (m + k) as real;
    DegNormUnique(x + FullTurn * k as real, r);
  }

  /**
   * A body is a conjunction candidate: orb at most 6 degrees and the same sign as the Fortune
   * point. The source compares sign names; SameSignIff shows that is comparing sign indices.
   */
  predicate Qualifies(fortune: real, body: real) {
    Orb(fortune, body) <= WideOrb && SignIndex(fortune) == SignIndex(body)
  }

  /**
   * Whether the scan prints a line for a body in the given mode: the candidate test, then
   * `'N'` prints every candidate and `'Y'` only candidates within 1 degree.
   */
  predicate Emits(mode: string, fortune: real, body: real) {
    var orb := Orb(fortune, body);
    if orb <= WideOrb && SignIndex(fortune) == SignIndex(body) then
      if mode == "N" then true
      else mode == "Y" && orb <= ExactOrb
    else false
  }

  /** Wide mode emits exactly the bodies within 6 degrees whose sign name is the Fortune point's. */
  lemma WideModeEmitsCandidates(fortune: real, body: real)
    ensures Emits("N", fortune, body) <==>
              Orb(fortune, body) <= WideOrb && ZodiacSign(fortune) == ZodiacSign(body)
  {
    SameSignIff(fortune, body);
  }

  /** Exact mode emits exactly the bodies within 1 degree whose sign name is the Fortune point's. */
  lemma ExactModeEmits(fortune: real, body: real)
    ensures Emits("Y", fortune, body) <==>
              Orb(fortune, body) <= ExactOrb && ZodiacSign(fortune) == ZodiacSign(body)
  {
    SameSignIff(fortune, body);
  }

  /** Any mode other than `'N'` and `'Y'` emits nothing. */
  lemma OtherModesSilent(mode: string, fortune: real, body: real)
    requires mode != "N" && mode != "Y"
    ensures !Emits(mode, fortune, body)
  {
  }

  /** Whatever exact mode emits, wide mode emits too. */
  lemma ExactWithinWide(fortune: real, body: real)
    ensures Emits("Y", fortune, body) ==> Emits("N", fortune, body)
  {
  }

  /** Every emission in any mode is a candidate. */
  lemma EmitsOnlyCandidates(mode: string, fortune: real, body: real)
    ensures Emits(mode, fortune, body) ==> Qualifies(fortune, body)
  {
  }

  /**
   * Within one sign the shortest arc never wraps: for two longitudes of the same sign the
   * orb is their plain difference, below 30 degrees.
   */
  lemma SameSignOrbIsPlainDistance(fortune: real, body: real)
    requires InCircle(fortune) && InCircle(body)
    requires SignIndex(fortune) == SignIndex(body)
    ensures Orb(fortune, body) == Abs(fortune - body) < SignWidth
  {
  }

  /**
   * Fortune at 359 degrees and a body at 2 degrees are 3 degrees apart but in Pisces and
   * Aries, so no line is emitted in any mode.
   */
  lemma CrossSignNotEmitted(mode: string)
    ensures Orb(359.0, 2.0) == 3.0
    ensures ZodiacSign(359.0) == "Pisces" && ZodiacSign(2.0) == "Aries"
    ensures !Emits(mode, 359.0, 2.0)
  {
    SameSignIff(359.0, 2.0);
  }

  /** Fortune at 45 degrees and a body at 46.5 degrees: orb 1.5, emitted in wide mode but not in exact mode. */
  lemma TaurusExample()
    ensures Orb(45.0, 46.5) == 1.5
    ensures Emits("N", 45.0, 46.5) && !Emits("Y", 45.0, 46.5)
  {
    SameSignIff(45.0, 46.5);
  }
}

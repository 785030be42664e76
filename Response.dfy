/** Detector response of one energy deposit in liquid argon: the ionisation
    charge after recombination (Birks law, and the Modified Box model whose
    value is an input here), the threshold buckets the charge is sorted into,
    and the scintillation light seen at five light-yield operating points. */
module Response {
  import opened Wrappers

  /** Birks-law recombination: the collected charge of a deposit of `edep`
      MeV over `trkLength` cm, with A = 0.8, kQ = 0.0972 g/(MeV cm2) at
      500 V/cm, argon density 1.4 g/cm3 and an ionisation share of 0.83.
      Python raises ZeroDivisionError on a zero length (and on a zero
      denominator, which needs a negative energy). */
  function ChargeBirksLaw(edep: real, trkLength: real): (q: Result<real>)
    ensures trkLength == 0.0 ==> q.Err?
    ensures q.Err? ==> trkLength == 0.0 || edep / trkLength < 0.0
    ensures edep >= 0.0 && trkLength > 0.0 ==> q.Ok? && 0.0 <= q.value <= 0.664 * edep
  {
    if trkLength == 0.0 then Err("ZeroDivisionError: float division by zero")
    else
      var denom := 1.0 + 0.0972 * edep / trkLength / 1.4;
      if denom == 0.0 then Err("ZeroDivisionError: float division by zero")
      else
        BirksBounds(edep, trkLength);
        Ok(0.83 * edep * 0.8 / denom)
  }

  lemma BirksBounds(edep: real, trkLength: real)
    requires trkLength != 0.0
    ensures 1.0 + 0.0972 * edep / trkLength / 1.4 == 0.0 ==> edep / trkLength < 0.0
    ensures edep >= 0.0 && trkLength > 0.0 ==>
      var denom := 1.0 + 0.0972 * edep / trkLength / 1.4;
      denom >= 1.0 && 0.0 <= 0.83 * edep * 0.8 / denom <= 0.664 * edep
  {
    var denom := 1.0 + 0.0972 * edep / trkLength / 1.4;
    var x := edep / trkLength;
    assert x * trkLength == edep;
    var y := 0.0972 * edep / trkLength;
    assert y * trkLength == 0.0972 * edep;
    Cancel(y, 0.0972 * x, trkLength);
    if edep >= 0.0 && trkLength > 0.0 {
      assert edep / trkLength >= 0.0;
      assert denom >= 1.0;
      DivideByAtLeastOne(0.664 * edep, denom);
    }
  }

  lemma Cancel(y: real, z: real, t: real)
    requires t != 0.0 && y * t == z * t
    ensures y == z
  {
    assert (y - z) * t == 0.0;
  }

  lemma FactorLess(p: real, c: real, e: real)
    requires e > 0.0 && p * e < c * e
    ensures p < c
  {
  }

  lemma DivideByAtLeastOne(x: real, d: real)
    requires x >= 0.0 && d >= 1.0
    ensures 0.0 <= x / d <= x
  {
    assert x / d * d == x;
  }

  /** The Birks charge of a physical deposit in the form A*e/(1 + k*e), with
      k the recombination constant per unit length. */
  lemma BirksClosedForm(edep: real, trkLength: real)
    requires edep >= 0.0 && trkLength > 0.0
    ensures ChargeBirksLaw(edep, trkLength).value * (1.0 + (0.0972 / (1.4 * trkLength)) * edep) == 0.664 * edep
  {
    var k := 0.0972 / (1.4 * trkLength);
    assert 0.0972 * edep / trkLength / 1.4 == k * edep;
  }

  /** A larger deposit over the same length yields strictly more charge. */
  lemma BirksMonotone(e1: real, e2: real, trkLength: real)
    requires 0.0 <= e1 < e2 && trkLength > 0.0
    ensures ChargeBirksLaw(e1, trkLength).value < ChargeBirksLaw(e2, trkLength).value
  {
    var k := 0.0972 / (1.4 * trkLength);
    assert k > 0.0;
    var q1, q2 := ChargeBirksLaw(e1, trkLength).value, ChargeBirksLaw(e2, trkLength).value;
    BirksClosedForm(e1, trkLength);
    BirksClosedForm(e2, trkLength);
    var d1, d2 := 1.0 + k * e1, 1.0 + k * e2;
    assert q1 == 0.664 * e1 / d1;
    assert q2 == 0.664 * e2 / d2;
    // e1 * (1 + k e2) < e2 * (1 + k e1), hence e1 / d1 < e2 / d2
    assert e1 * d2 < e2 * d1;
    CrossMultiply(e1, d1, e2, d2);
  }

  lemma CrossMultiply(a: real, b: real, c: real, d: real)
    requires b > 0.0 && d > 0.0 && a * d < c * b
    ensures 0.664 * a / b < 0.664 * c / d
  {
    assert a / b == (a * d) / (b * d);
    assert c / d == (c * b) / (b * d);
  }

  /** Recombination caps the charge of a deposit: however large the energy,
      it stays below A*0.83/k times the length. */
  lemma BirksSaturates(edep: real, trkLength: real)
    requires edep >= 0.0 && trkLength > 0.0
    ensures ChargeBirksLaw(edep, trkLength).value < 0.664 * 1.4 * trkLength / 0.0972
  {
    var k := 0.0972 / (1.4 * trkLength);
    var q := ChargeBirksLaw(edep, trkLength).value;
    BirksClosedForm(edep, trkLength);
    assert q * (1.0 + k * edep) == 0.664 * edep;
    assert q >= 0.0;
    assert q + q * k * edep == 0.664 * edep;
    if q > 0.0 {
      assert edep > 0.0;
      assert (q * k) * edep == 0.664 * edep - q;
      FactorLess(q * k, 0.664, edep);
    }
    assert 0.664 / k == 0.664 * 1.4 * trkLength / 0.0972;
  }

  /** A charge split into the total, the part above 75 keV and the part above
      500 keV (each a sum over deposits). */
  datatype Charge = Charge(all: real, th75: real, th500: real) {
    function Plus(o: Charge): Charge {
      Charge(all + o.all, th75 + o.th75, th500 + o.th500)
    }

    /** 0 <= th500 <= th75 <= all */
    predicate Ordered() {
      0.0 <= th500 <= th75 <= all
    }
  }

  /** The buckets one deposit's charge q goes into: always the total, and
      each threshold bucket on its own strict test. */
  function Buckets(q: real): Charge {
    Charge(q, if q > 0.075 then q else 0.0, if q > 0.5 then q else 0.0)
  }

  lemma ThresholdBuckets(q: real)
    ensures Buckets(q).all == q
    ensures q <= 0.075 ==> Buckets(q).th75 == 0.0 && Buckets(q).th500 == 0.0
    ensures 0.075 < q <= 0.5 ==> Buckets(q).th75 == q && Buckets(q).th500 == 0.0
    ensures q > 0.5 ==> Buckets(q).th75 == q && Buckets(q).th500 == q
    ensures q >= 0.0 ==> Buckets(q).Ordered()
  {
  }

  lemma OrderedPlus(a: Charge, b: Charge)
    requires a.Ordered() && b.Ordered()
    ensures a.Plus(b).Ordered()
  {
  }

  /** One value per light-yield operating point: 220, 180, 140, 100 and 35
      photoelectrons per MeV. */
  datatype PerYield = PerYield(y220: real, y180: real, y140: real, y100: real, y35: real) {
    function Plus(o: PerYield): PerYield {
      PerYield(y220 + o.y220, y180 + o.y180, y140 + o.y140, y100 + o.y100, y35 + o.y35)
    }
  }

  function Uniform(x: real): PerYield {
    PerYield(x, x, x, x, x)
  }

  /** Photon collection efficiencies of the five operating points with Birks
      charge (a W_ph of 19.5 eV per photon). */
  const Pce := PerYield(0.01, 0.0083, 0.0065, 0.0046, 0.0016)

  /** Photoelectrons per MeV of the five operating points with Modified Box charge. */
  const Yield := PerYield(220.0, 180.0, 140.0, 100.0, 35.0)

  /** The mean photoelectron count for `ldep` MeV of light, Birks case. */
  function ExpectedPE(ldep: real): PerYield {
    PerYield((ldep * 1000000.0 / 19.5) * Pce.y220, (ldep * 1000000.0 / 19.5) * Pce.y180,
             (ldep * 1000000.0 / 19.5) * Pce.y140, (ldep * 1000000.0 / 19.5) * Pce.y100,
             (ldep * 1000000.0 / 19.5) * Pce.y35)
  }

  /** The light energy read back from detected photoelectron counts, Birks case. */
  function BirksLight(pe: PerYield): PerYield {
    PerYield(pe.y220 * 19.5 / 1000000.0 / Pce.y220, pe.y180 * 19.5 / 1000000.0 / Pce.y180,
             pe.y140 * 19.5 / 1000000.0 / Pce.y140, pe.y100 * 19.5 / 1000000.0 / Pce.y100,
             pe.y35 * 19.5 / 1000000.0 / Pce.y35)
  }

  /** The mean photoelectron count for `ldep` MeV of light, Modified Box case. */
  function ExpectedPEMBox(ldep: real): PerYield {
    PerYield(ldep * Yield.y220, ldep * Yield.y180, ldep * Yield.y140, ldep * Yield.y100, ldep * Yield.y35)
  }

  /** The light energy read back from detected photoelectron counts, Modified Box case. */
  function MBoxLight(pe: PerYield): PerYield {
    PerYield(pe.y220 / Yield.y220, pe.y180 / Yield.y180, pe.y140 / Yield.y140, pe.y100 / Yield.y100, pe.y35 / Yield.y35)
  }

  /** Reading back inverts the photoelectron count: the detected light is the
      light energy plus the read-back of the sampling noise, at every
      operating point and for both charge models. */
  lemma LightReadBack(ldep: real, noise: PerYield)
    ensures BirksLight(ExpectedPE(ldep).Plus(noise)) == Uniform(ldep).Plus(BirksLight(noise))
    ensures MBoxLight(ExpectedPEMBox(ldep).Plus(noise)) == Uniform(ldep).Plus(MBoxLight(noise))
  {
  }

  /** What one deposit adds to its track: energy, Birks and Modified Box charge
      buckets, and light at the five operating points for both models. */
  datatype Deposited = Deposited(energy: real, charge: Charge, chargeMBox: Charge, light: PerYield, lightMBox: PerYield) {
    function Plus(o: Deposited): Deposited {
      Deposited(energy + o.energy, charge.Plus(o.charge), chargeMBox.Plus(o.chargeMBox),
                light.Plus(o.light), lightMBox.Plus(o.lightMBox))
    }
  }

  const Zero := Deposited(0.0, Charge(0.0, 0.0, 0.0), Charge(0.0, 0.0, 0.0), Uniform(0.0), Uniform(0.0))

  lemma PlusAssoc(a: Deposited, b: Deposited, c: Deposited)
    ensures a.Plus(b).Plus(c) == a.Plus(b.Plus(c))
  {
  }

  lemma PlusComm(a: Deposited, b: Deposited)
    ensures a.Plus(b) == b.Plus(a)
  {
  }

  lemma PlusZero(a: Deposited)
    ensures a.Plus(Zero) == a && Zero.Plus(a) == a
  {
  }
}

/** The Gaia DR2 colour transformation of satist/photometry.py: a quadratic
    in BP - RP whose coefficients are looked up by the name of the target
    passband. */
module Photometry {
  import opened Common

  /** Constant, linear and quadratic coefficient per target passband. */
  const CoeffDict: map<string, seq<real>> := map[
    "2MASS_Ks" := [0.1885, -2.092, 0.1345],
    "2MASS_H" := [0.1621, -1.968, 0.1328],
    "2MASS_J" := [0.01883, -1.394, 0.07893],
    "SDSS12_i" := [0.29676, -0.64728, 0.10141]
  ]

  const DefaultFilter: string := "2MASS_Ks"

  /** The quadratic c0 + c1 x + c2 x^2. */
  function Quadratic(c: seq<real>, x: real): (r: real)
    requires |c| == 3
    ensures x == 0.0 ==> r == c[0]
  {
    c[0] + c[1] * x + c[2] * (x * x)
  }

  /** `convert_gaia_magnitude`: a KeyError for an unknown passband, otherwise
      the quadratic of that passband evaluated at BP - RP. */
  function ConvertGaiaMagnitude(gaiaG: real, gaiaBp: real, gaiaRp: real, targetFilter: string): (r: Result<real>)
    ensures r.Failure? <==> targetFilter !in CoeffDict
    ensures r.Failure? ==> r.error == KeyError(targetFilter)
    ensures r.Success? ==> |CoeffDict[targetFilter]| == 3 && r.value == Quadratic(CoeffDict[targetFilter], gaiaBp - gaiaRp)
  {
    if targetFilter !in CoeffDict then Failure(KeyError(targetFilter))
    else
      Success(Quadratic(CoeffDict[targetFilter], gaiaBp - gaiaRp))
  }

  /** Exactly four passbands are known. */
  lemma KnownFilters(f: string)
    ensures f in CoeffDict <==> f in {"2MASS_Ks", "2MASS_H", "2MASS_J", "SDSS12_i"}
  {
  }

  /** The default passband is always found. */
  lemma DefaultFilterConverts(g: real, bp: real, rp: real)
    ensures ConvertGaiaMagnitude(g, bp, rp, DefaultFilter).Success?
    ensures ConvertGaiaMagnitude(g, bp, rp, DefaultFilter).value ==
              0.1885 - 2.092 * (bp - rp) + 0.1345 * ((bp - rp) * (bp - rp))
  {
  }

  /** The result depends on the colour BP - RP only: neither on G nor on the
      common level of BP and RP. */
  lemma DependsOnColourOnly(g1: real, g2: real, bp: real, rp: real, shift: real, f: string)
    ensures ConvertGaiaMagnitude(g1, bp, rp, f) == ConvertGaiaMagnitude(g2, bp + shift, rp + shift, f)
  {
    assert (bp + shift) - (rp + shift) == bp - rp;
  }

  /** A source with BP = RP maps to the constant coefficient. */
  lemma ZeroColour(g: real, m: real, f: string)
    requires f in CoeffDict
    ensures ConvertGaiaMagnitude(g, m, m, f) == Success(CoeffDict[f][0])
  {
  }
}

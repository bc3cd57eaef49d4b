/** The decision logic of `iod_lmfit` (branches/iod/process_lmfit.py): the
    choice of observing site and of the observation pair handed to the
    circular-orbit guess, the quality gate on the final residuals, the
    per-horizon predicted sky positions with their covariances, and the
    tuples returned to `main`. The ssa library (circular guess, the two
    least-squares fits, propagation, sigma points), the station-radius
    rounding and the cosine are parameters: the fields of `Ssa`. */
module ProcessLmfit {
  import opened Common
  import opened Sorting

  type State = seq<real>
  type Matrix = seq<seq<real>>

  datatype Vec3 = Vec3(x: real, y: real, z: real)

  /** One row of the input track: angles in degrees, GPS time in seconds,
      station position in metres. */
  datatype Observation = Observation(ra: real, dec: real, time: real, station: Vec3)

  /** One row of the `arc` table handed to the fits. */
  datatype ArcRow = ArcRow(ra: real, dec: real, time: real, rStation: Vec3, vStation: Vec3, sigmaArcsec: real)

  /** Every observation is given an uncertainty of 10 arcsec. */
  const SigmaArcsec: real := 10.0

  datatype Orbit = Orbit(elements: seq<real>, epoch: real)

  /** What the final Cartesian optimizer leaves in `lmofinal.result`. */
  datatype LmResult = LmResult(covar: Matrix, residual: seq<real>)

  /** A (ra, dec) pair in degrees. */
  datatype SkyPoint = SkyPoint(ra: real, dec: real)

  /** The collaborators of `iod_lmfit`.
      siteRadius: the station distance from the geocentre in km, rounded to 3 decimals;
      circularGuess: ssa.circular_guess on two arc rows;
      elementFit: RVProbability with the eccentricity prior, conversion to equinoctial
        elements, SGP4LMOptimizer.optimize and _getOrbit;
      rvAt: ssa.rv of an orbit at a time;
      cartesianFit: RVProbability at the final epoch and LMOptimizer.optimize;
      sigmaPoints: ssa.utils.sigma_points of `fictionalrd` for a state and covariance
        taken at an epoch and propagated by an offset in seconds: the (ra, dec) seen
        from the ground point below the satellite, converted to degrees, one row per
        sigma point, the central one first;
      cosDeg: the cosine of an angle in degrees. */
  datatype Ssa = Ssa(
    siteRadius: Vec3 -> real,
    earthOmega: real,
    circularGuess: (ArcRow, ArcRow) -> (State, real),
    elementFit: (seq<ArcRow>, real, State) -> Orbit,
    rvAt: (Orbit, real) -> State,
    cartesianFit: (seq<ArcRow>, real, State) -> LmResult,
    sigmaPoints: (real, real, State, Matrix) -> seq<SkyPoint>,
    cosDeg: real -> real)

  /** The sigma points of a six-component state: the centre and 2 x 6 offsets. */
  ghost predicate SigmaPointsShape(ssa: Ssa)
  {
    forall epoch, dt, rv, c :: |ssa.sigmaPoints(epoch, dt, rv, c)| == 13
  }

  // ---------------------------------------------------------------------
  // The arc
  // ---------------------------------------------------------------------

  /** Station velocity `np.cross(up * omega, r)` with up = (0, 0, 1). */
  function StationVelocity(r: Vec3, omega: real): (v: Vec3)
    ensures v.x * r.x + v.y * r.y + v.z * r.z == 0.0
    ensures v.z == 0.0
    ensures v.x * v.x + v.y * v.y == omega * omega * (r.x * r.x + r.y * r.y)
    ensures r.x * v.y - r.y * v.x == omega * (r.x * r.x + r.y * r.y)
  {
    Vec3(-omega * r.y, omega * r.x, 0.0)
  }

  /** The `arc` table: one row per observation, in track order, with the
      station velocity of the Earth's rotation and the fixed uncertainty. */
  function BuildArc(track: seq<Observation>, omega: real): (arc: seq<ArcRow>)
    ensures |arc| == |track|
    ensures forall k :: 0 <= k < |track| ==>
              arc[k] == ArcRow(track[k].ra, track[k].dec, track[k].time, track[k].station,
                               StationVelocity(track[k].station, omega), SigmaArcsec)
  {
    if track == [] then []
    else
      var o := track[0];
      [ArcRow(o.ra, o.dec, o.time, o.station, StationVelocity(o.station, omega), SigmaArcsec)]
        + BuildArc(track[1..], omega)
  }

  /** The rounded station radius of every row (`rsite`). */
  function Radii(arc: seq<ArcRow>, radius: Vec3 -> real): (r: seq<real>)
    ensures |r| == |arc|
    ensures forall k :: 0 <= k < |arc| ==> r[k] == radius(arc[k].rStation)
  {
    if arc == [] then [] else [radius(arc[0].rStation)] + Radii(arc[1..], radius)
  }

  function Times(arc: seq<ArcRow>): (t: seq<real>)
    ensures |t| == |arc|
    ensures forall k :: 0 <= k < |arc| ==> t[k] == arc[k].time
  {
    if arc == [] then [] else [arc[0].time] + Times(arc[1..])
  }

  /** `np.max`: the latest observation time. */
  function MaxTime(t: seq<real>): (m: real)
    requires 0 < |t|
    ensures m in t
    ensures forall k :: 0 <= k < |t| ==> t[k] <= m
  {
    if |t| == 1 then t[0]
    else
      var rest := MaxTime(t[1..]);
      if t[0] < rest then rest else t[0]
  }

  // ---------------------------------------------------------------------
  // The most common site
  // ---------------------------------------------------------------------

  /** `x` occurs at least as often as every value of `rsite`, and is the
      smallest of the values that occur that often. */
  ghost predicate IsMostCommon(rsite: seq<real>, x: real)
  {
    && x in rsite
    && (forall y :: y in rsite ==> Count(rsite, y) <= Count(rsite, x))
    && (forall y :: y in rsite && Count(rsite, y) == Count(rsite, x) ==> x <= y)
  }

  /** At most one value is the most common one. */
  lemma MostCommonUnique(rsite: seq<real>, x: real, y: real)
    requires IsMostCommon(rsite, x) && IsMostCommon(rsite, y)
    ensures x == y
  {
  }

  /** The loop over `np.unique(rsite)` that keeps the first value whose count
      beats `nmax`. None stands for `rsite_mostcommon` never being bound. */
  method MostCommonSite(rsite: seq<real>) returns (r: Option<real>)
    ensures r.None? <==> rsite == []
    ensures r.Some? ==> IsMostCommon(rsite, r.value)
  {
    var rsiteu := Unique(rsite);
    var nmax := 0;
    ghost var best := 0;
    r := None;
    for i := 0 to |rsiteu|
      invariant r.None? <==> nmax == 0
      invariant r.None? ==> i == 0
      invariant r.Some? ==> best < i && rsiteu[best] == r.value && Count(rsite, r.value) == nmax
      invariant forall j :: 0 <= j < i ==> Count(rsite, rsiteu[j]) <= nmax
      invariant r.Some? ==> forall j :: 0 <= j < best ==> Count(rsite, rsiteu[j]) < nmax
    {
      var rr := rsiteu[i];
      CountPositive(rsite, rr);
      var nn := Count(rsite, rr);
      if nn > nmax {
        nmax := nn;
        r := Some(rr);
        best := i;
      }
    }
    if rsite != [] {
      assert rsite[0] in rsiteu;
    }
    if r.Some? {
      forall y | y in rsite
        ensures Count(rsite, y) <= nmax
        ensures Count(rsite, y) == nmax ==> r.value <= y
      {
        assert y in rsiteu;
        var j :| 0 <= j < |rsiteu| && rsiteu[j] == y;
        if best < j {
          assert rsiteu[best] < rsiteu[j];
        }
      }
    }
  }

  /** The rows observed from the site `site`, in their original order (`arc[m]`). */
  function AtSite(arc: seq<ArcRow>, radius: Vec3 -> real, site: real): (m: seq<ArcRow>)
    ensures |m| == Count(Radii(arc, radius), site)
    ensures forall k :: 0 <= k < |m| ==> radius(m[k].rStation) == site
  {
    if arc == [] then []
    else
      assert Radii(arc, radius)[1..] == Radii(arc[1..], radius);
      var rest := AtSite(arc[1..], radius, site);
      if radius(arc[0].rStation) == site then [arc[0]] + rest else rest
  }

  /** Every selected row is a row of the arc. */
  lemma {:induction false} AtSiteFromArc(arc: seq<ArcRow>, radius: Vec3 -> real, site: real)
    ensures forall k :: 0 <= k < |AtSite(arc, radius, site)| ==> AtSite(arc, radius, site)[k] in arc
  {
    if arc != [] {
      AtSiteFromArc(arc[1..], radius, site);
      var rest := AtSite(arc[1..], radius, site);
      forall k | 0 <= k < |rest| ensures rest[k] in arc {
        assert rest[k] in arc[1..];
      }
      if radius(arc[0].rStation) == site {
        assert AtSite(arc, radius, site) == [arc[0]] + rest;
      } else {
        assert AtSite(arc, radius, site) == rest;
      }
    }
  }

  /** The site rows keep their order: the row at position k of the arc is
      entry p of the selection, where p counts the site rows before k. */
  lemma {:induction false} AtSiteInOrder(arc: seq<ArcRow>, radius: Vec3 -> real, site: real, k: nat)
    requires k < |arc| && radius(arc[k].rStation) == site
    ensures var p := Count(Radii(arc, radius)[..k], site);
            p < |AtSite(arc, radius, site)| && AtSite(arc, radius, site)[p] == arc[k]
  {
    if k == 0 {
      assert Radii(arc, radius)[..0] == [];
      AtSiteStep(arc, radius, site, 0);
    } else {
      AtSiteInOrder(arc[1..], radius, site, k - 1);
      AtSiteInOrderStep(arc, radius, site, k, Count(Radii(arc[1..], radius)[..k - 1], site));
    }
  }

  /** The induction step of `AtSiteInOrder`: from the position of row k in
      the selection from the tail to its position in the selection from the
      whole arc. */
  lemma AtSiteInOrderStep(arc: seq<ArcRow>, radius: Vec3 -> real, site: real, k: nat, q: nat)
    requires 0 < k < |arc|
    requires q == Count(Radii(arc[1..], radius)[..k - 1], site)
    requires q < |AtSite(arc[1..], radius, site)| && AtSite(arc[1..], radius, site)[q] == arc[k]
    ensures var p := Count(Radii(arc, radius)[..k], site);
            p < |AtSite(arc, radius, site)| && AtSite(arc, radius, site)[p] == arc[k]
  {
    var rs := Radii(arc, radius);
    var c := if radius(arc[0].rStation) == site then 1 else 0;
    assert Count(rs[..k], site) == c + q by {
      assert rs[1..] == Radii(arc[1..], radius);
      PrefixCount(rs, site, k);
    }
    AtSiteStep(arc, radius, site, q);
  }

  /** Entry q of the selection from the tail is entry q, or q + 1 when the
      head row is at the site, of the selection from the whole arc; a head
      row at the site is entry 0. */
  lemma AtSiteStep(arc: seq<ArcRow>, radius: Vec3 -> real, site: real, q: nat)
    requires 0 < |arc|
    requires q < |AtSite(arc[1..], radius, site)| || (q == 0 && radius(arc[0].rStation) == site)
    ensures var c := if radius(arc[0].rStation) == site then 1 else 0;
            var m := AtSite(arc, radius, site);
            (q < |AtSite(arc[1..], radius, site)| ==>
               c + q < |m| && m[c + q] == AtSite(arc[1..], radius, site)[q]) &&
            (c == 1 ==> 0 < |m| && m[0] == arc[0])
  {
    var rest := AtSite(arc[1..], radius, site);
    if radius(arc[0].rStation) == site {
      assert AtSite(arc, radius, site) == [arc[0]] + rest;
    } else {
      assert AtSite(arc, radius, site) == rest;
    }
  }

  /** Counting in a non-empty prefix: its head, then the rest of the prefix. */
  lemma PrefixCount(s: seq<real>, x: real, k: nat)
    requires 0 < k <= |s|
    ensures Count(s[..k], x) == (if s[0] == x then 1 else 0) + Count(s[1..][..k - 1], x)
  {
    assert s[..k][1..] == s[1..][..k - 1];
  }

  // ---------------------------------------------------------------------
  // The closest pair in time
  // ---------------------------------------------------------------------

  const Penalty: real := 1000000000.0

  const ArgminEmpty := "attempt to get argmin of an empty sequence"

  /** `dt + (dt <= 0) * 1e9`. */
  function Penalized(dt: real): real
  {
    if dt <= 0.0 then dt + Penalty else dt
  }

  function Gap(t: seq<real>, j: nat): real
    requires j + 1 < |t|
  {
    t[j + 1] - t[j]
  }

  /** The penalized `np.diff` of the times. */
  function PenalizedGaps(t: seq<real>): (g: seq<real>)
    ensures |g| == if |t| < 2 then 0 else |t| - 1
    ensures forall j :: 0 <= j < |g| ==> g[j] == Penalized(Gap(t, j))
  {
    if |t| < 2 then [] else seq(|t| - 1, j requires 0 <= j < |t| - 1 => Penalized(Gap(t, j)))
  }

  /** `np.argmin`: the first position of a least element. */
  function ArgMin(s: seq<real>): (k: nat)
    requires 0 < |s|
    ensures k < |s|
    ensures forall j :: 0 <= j < |s| ==> s[k] <= s[j]
    ensures forall j :: 0 <= j < k ==> s[k] < s[j]
  {
    if |s| == 1 then 0
    else
      var k := ArgMin(s[..|s| - 1]);
      if s[|s| - 1] < s[k] then |s| - 1 else k
  }

  /** Gap k has the least penalized value, and every earlier gap a larger one. */
  ghost predicate IsFirstLeastGap(t: seq<real>, k: nat)
  {
    && k + 1 < |t|
    && (forall j :: 0 <= j < |t| - 1 ==> Penalized(Gap(t, k)) <= Penalized(Gap(t, j)))
    && (forall j :: 0 <= j < k ==> Penalized(Gap(t, k)) < Penalized(Gap(t, j)))
  }

  /** `bestind`: rows k and k+1 of the site's rows are handed to the guess. */
  function BestIndex(t: seq<real>): (r: Result<nat>)
    ensures r.Failure? <==> |t| < 2
    ensures r.Failure? ==> r.error == ValueError(ArgminEmpty)
    ensures r.Success? ==> IsFirstLeastGap(t, r.value)
  {
    var g := PenalizedGaps(t);
    if |g| == 0 then Failure(ValueError(ArgminEmpty)) else Success(ArgMin(g))
  }

  /** When the gaps are all shorter than half the penalty and one of them is
      positive, the chosen gap is the least positive gap. */
  lemma ChosenGapLeastPositive(t: seq<real>, k: nat, j0: nat)
    requires IsFirstLeastGap(t, k)
    requires j0 + 1 < |t| && 0.0 < Gap(t, j0)
    requires forall j :: 0 <= j < |t| - 1 ==> -Penalty / 2.0 < Gap(t, j) < Penalty / 2.0
    ensures 0.0 < Gap(t, k)
    ensures forall j :: 0 <= j < |t| - 1 && 0.0 < Gap(t, j) ==> Gap(t, k) <= Gap(t, j)
  {
    assert Penalized(Gap(t, k)) <= Penalized(Gap(t, j0));
  }

  // ---------------------------------------------------------------------
  // Quality gate
  // ---------------------------------------------------------------------

  const GateThreshold: real := 10.0

  /** `ok = np.sum(resid**2)/len(resid) < 10`. An empty residual makes numpy
      divide 0.0 by 0, giving NaN, which compares false. */
  function FitAccepted(resid: seq<real>): (ok: bool)
    ensures ok <==> 0 < |resid| && SumSquares(resid) < GateThreshold * |resid| as real
  {
    0 < |resid| && SumSquares(resid) / |resid| as real < GateThreshold
  }

  /** A mean square of exactly 10 is rejected. */
  lemma GateBoundaryRejected(resid: seq<real>)
    requires 0 < |resid| && SumSquares(resid) == GateThreshold * |resid| as real
    ensures !FitAccepted(resid)
  {
  }

  /** A single residual whose square reaches 10 times the number of
      residuals rejects the fit, whatever the others are. */
  lemma GateRejectsOutlier(resid: seq<real>, k: nat)
    requires k < |resid| && GateThreshold * |resid| as real <= resid[k] * resid[k]
    ensures !FitAccepted(resid)
  {
    SumSquaresAtLeast(resid, k);
  }

  // ---------------------------------------------------------------------
  // RA wrapping
  // ---------------------------------------------------------------------

  /** Python's float `x % 360`, whose result has the sign of the divisor. */
  function Mod360(x: real): (m: real)
    ensures 0.0 <= m < 360.0
    ensures ((x - m) / 360.0).Floor as real == (x - m) / 360.0
  {
    x - 360.0 * (x / 360.0).Floor as real
  }

  /** `((x + 180) % 360) - 180`: the representative of x modulo 360 in [-180, 180). */
  function WrapDegrees(x: real): (w: real)
    ensures -180.0 <= w < 180.0
    ensures ((x - w) / 360.0).Floor as real == (x - w) / 360.0
  {
    Mod360(x + 180.0) - 180.0
  }

  lemma FloorShift(y: real, k: int)
    ensures (y + k as real).Floor == y.Floor + k
  {
  }

  /** Adding whole turns does not change the wrapped value. */
  lemma WrapPeriodic(x: real, k: int)
    ensures WrapDegrees(x + 360.0 * k as real) == WrapDegrees(x)
  {
    var y := (x + 180.0) / 360.0;
    assert (x + 360.0 * k as real + 180.0) / 360.0 == y + k as real;
    FloorShift(y, k);
  }

  /** Values already in [-180, 180) are left alone. */
  lemma WrapFixesPrincipal(x: real)
    requires -180.0 <= x < 180.0
    ensures WrapDegrees(x) == x
  {
    var y := (x + 180.0) / 360.0;
    assert 0.0 <= y < 1.0;
    assert y.Floor == 0;
  }

  // ---------------------------------------------------------------------
  // Population covariance of the sigma-point deviations
  // ---------------------------------------------------------------------

  /** A 2 x 2 covariance in (ra, dec). */
  datatype Cov2 = Cov2(raRa: real, raDec: real, decRa: real, decDec: real)

  /** One `predloc` entry: the central sigma-point value and the covariance. */
  datatype Prediction = Prediction(center: SkyPoint, covar: Cov2)

  function Mean(u: seq<real>): real
    requires 0 < |u|
  {
    Sum(u) / |u| as real
  }

  function Shift(u: seq<real>, c: real): (v: seq<real>)
    ensures |v| == |u|
  {
    if u == [] then [] else [u[0] + c] + Shift(u[1..], c)
  }

  /** ddof = 0 covariance of two equally long columns: each centred on its own mean. */
  function PopCov(u: seq<real>, v: seq<real>): real
    requires 0 < |u| == |v|
  {
    Dot(Shift(u, -Mean(u)), Shift(v, -Mean(v))) / |u| as real
  }

  lemma {:induction false} DotSymmetric(a: seq<real>, b: seq<real>)
    requires |a| == |b|
    ensures Dot(a, b) == Dot(b, a)
  {
    if a != [] {
      DotSymmetric(a[1..], b[1..]);
    }
  }

  lemma {:induction false} DotSelfNonnegative(a: seq<real>)
    ensures 0.0 <= Dot(a, a)
  {
    if a != [] {
      DotSelfNonnegative(a[1..]);
    }
  }

  lemma {:induction false} SumShift(u: seq<real>, c: real)
    ensures Sum(Shift(u, c)) == Sum(u) + |u| as real * c
  {
    if u != [] {
      SumShift(u[1..], c);
    }
  }

  lemma {:induction false} ShiftShift(u: seq<real>, c: real, d: real)
    ensures Shift(Shift(u, c), d) == Shift(u, c + d)
  {
    if u != [] {
      ShiftShift(u[1..], c, d);
    }
  }

  lemma DivShift(a: real, n: real, c: real)
    requires 0.0 < n
    ensures (a + n * c) / n == a / n + c
  {
    var q := a / n;
    assert a == q * n;
    assert a + n * c == (q + c) * n;
  }

  /** Adding a constant to a column moves its mean by that constant. */
  lemma MeanShift(u: seq<real>, c: real)
    requires 0 < |u|
    ensures Mean(Shift(u, c)) == Mean(u) + c
  {
    SumShift(u, c);
    DivShift(Sum(u), |u| as real, c);
  }

  /** The covariance does not depend on the reference the deviations were taken from. */
  lemma PopCovShiftInvariant(u: seq<real>, v: seq<real>, c: real)
    requires 0 < |u| == |v|
    ensures PopCov(Shift(u, c), v) == PopCov(u, v)
  {
    MeanShift(u, c);
    ShiftShift(u, c, -(Mean(u) + c));
    assert c + -(Mean(u) + c) == -Mean(u);
  }

  function RaColumn(d: seq<SkyPoint>): (u: seq<real>)
    ensures |u| == |d|
    ensures forall k :: 0 <= k < |d| ==> u[k] == d[k].ra
  {
    if d == [] then [] else [d[0].ra] + RaColumn(d[1..])
  }

  function DecColumn(d: seq<SkyPoint>): (u: seq<real>)
    ensures |u| == |d|
    ensures forall k :: 0 <= k < |d| ==> u[k] == d[k].dec
  {
    if d == [] then [] else [d[0].dec] + DecColumn(d[1..])
  }

  /** `np.cov(dmean.T, ddof=0)`: symmetric with a non-negative diagonal. */
  function Covariance(d: seq<SkyPoint>): (c: Cov2)
    requires 0 < |d|
    ensures c.raDec == c.decRa
    ensures 0.0 <= c.raRa && 0.0 <= c.decDec
  {
    var ra := RaColumn(d);
    var dec := DecColumn(d);
    DotSymmetric(Shift(ra, -Mean(ra)), Shift(dec, -Mean(dec)));
    DotSelfNonnegative(Shift(ra, -Mean(ra)));
    DotSelfNonnegative(Shift(dec, -Mean(dec)));
    Cov2(PopCov(ra, ra), PopCov(ra, dec), PopCov(dec, ra), PopCov(dec, dec))
  }

  /** `dmean` after the RA wrap: each sigma point minus the central one, the RA
      difference wrapped and scaled by `cd`, the dec difference as it is. */
  function Deviations(fsigma: seq<SkyPoint>, cd: real): (d: seq<SkyPoint>)
    requires 0 < |fsigma|
    ensures |d| == |fsigma| - 1
    ensures forall k :: 0 <= k < |d| ==> d[k].dec == fsigma[k + 1].dec - fsigma[0].dec
    ensures 0.0 <= cd ==> forall k :: 0 <= k < |d| ==> -180.0 * cd <= d[k].ra <= 180.0 * cd
  {
    var d := seq(|fsigma| - 1, k requires 0 <= k < |fsigma| - 1 =>
      SkyPoint(WrapDegrees(fsigma[k + 1].ra - fsigma[0].ra) * cd, fsigma[k + 1].dec - fsigma[0].dec));
    assert 0.0 <= cd ==> forall k :: 0 <= k < |d| ==> -180.0 * cd <= d[k].ra <= 180.0 * cd by {
      if 0.0 <= cd {
        forall k | 0 <= k < |d| ensures -180.0 * cd <= d[k].ra <= 180.0 * cd {
          ScaledWrapBound(fsigma[k + 1].ra - fsigma[0].ra, cd);
        }
      }
    }
    d
  }

  /** A sequence with the deviation entries, entry by entry, is `Deviations`. */
  lemma DeviationsElementwise(fsigma: seq<SkyPoint>, cd: real, devs: seq<SkyPoint>)
    requires 0 < |fsigma| && |devs| == |fsigma| - 1
    requires forall k :: 0 <= k < |devs| ==>
               devs[k] == SkyPoint(WrapDegrees(fsigma[k + 1].ra - fsigma[0].ra) * cd, fsigma[k + 1].dec - fsigma[0].dec)
    ensures devs == Deviations(fsigma, cd)
  {
  }

  lemma MulNonnegative(a: real, b: real)
    requires 0.0 <= a && 0.0 <= b
    ensures 0.0 <= a * b
  {
  }

  /** A wrapped angle scaled by a non-negative factor stays within 180 times that factor. */
  lemma ScaledWrapBound(x: real, cd: real)
    requires 0.0 <= cd
    ensures -180.0 * cd <= WrapDegrees(x) * cd <= 180.0 * cd
  {
    var w := WrapDegrees(x);
    MulNonnegative(w + 180.0, cd);
    MulNonnegative(180.0 - w, cd);
  }

  /** RA values that differ by whole turns give the same deviations. */
  lemma DeviationsTurnInvariant(f: seq<SkyPoint>, g: seq<SkyPoint>, turns: seq<int>, cd: real)
    requires 0 < |f| == |g| == |turns|
    requires forall i :: 0 <= i < |f| ==> g[i] == SkyPoint(f[i].ra + 360.0 * turns[i] as real, f[i].dec)
    ensures Deviations(g, cd) == Deviations(f, cd)
  {
    forall k | 0 <= k < |f| - 1 ensures Deviations(g, cd)[k] == Deviations(f, cd)[k] {
      var x := f[k + 1].ra - f[0].ra;
      assert g[k + 1].ra - g[0].ra == x + 360.0 * (turns[k + 1] - turns[0]) as real;
      WrapPeriodic(x, turns[k + 1] - turns[0]);
    }
  }

  /** The `predloc` entry for one set of sigma-point outputs: the central
      point and a symmetric covariance with a non-negative diagonal. */
  function PredictionOf(fsigma: seq<SkyPoint>, cosDeg: real -> real): (p: Prediction)
    requires 2 <= |fsigma|
    ensures p.center == fsigma[0]
    ensures p.covar.raDec == p.covar.decRa && 0.0 <= p.covar.raRa && 0.0 <= p.covar.decDec
  {
    Prediction(fsigma[0], Covariance(Deviations(fsigma, cosDeg(fsigma[0].dec))))
  }

  /** The RA wrap of `dmean`: wraps and scales column 0 of `dmean` in place; column 1 is untouched. */
  method WrapRaColumn(dmean: array2<real>, cd: real)
    requires dmean.Length1 == 2
    modifies dmean
    ensures forall k :: 0 <= k < dmean.Length0 ==> dmean[k, 0] == WrapDegrees(old(dmean[k, 0])) * cd
    ensures forall k :: 0 <= k < dmean.Length0 ==> dmean[k, 1] == old(dmean[k, 1])
  {
    for k := 0 to dmean.Length0
      invariant forall j :: 0 <= j < k ==> dmean[j, 0] == WrapDegrees(old(dmean[j, 0])) * cd
      invariant forall j :: k <= j < dmean.Length0 ==> dmean[j, 0] == old(dmean[j, 0])
      invariant forall j :: 0 <= j < dmean.Length0 ==> dmean[j, 1] == old(dmean[j, 1])
    {
      dmean[k, 0] := WrapDegrees(dmean[k, 0]) * cd;
    }
  }

  function Rows(a: array2<real>): (d: seq<SkyPoint>)
    requires a.Length1 == 2
    reads a
    ensures |d| == a.Length0
    ensures forall k :: 0 <= k < a.Length0 ==> d[k] == SkyPoint(a[k, 0], a[k, 1])
  {
    seq(a.Length0, k requires 0 <= k < a.Length0 reads a => SkyPoint(a[k, 0], a[k, 1]))
  }

  /** `fsigma[1:] - fsigma[0]` as an n x 2 array of (RA, Dec) differences. */
  method Differences(fsigma: seq<SkyPoint>) returns (dmean: array2<real>)
    requires 0 < |fsigma|
    ensures fresh(dmean) && dmean.Length0 == |fsigma| - 1 && dmean.Length1 == 2
    ensures forall j :: 0 <= j < dmean.Length0 ==>
              dmean[j, 0] == fsigma[j + 1].ra - fsigma[0].ra && dmean[j, 1] == fsigma[j + 1].dec - fsigma[0].dec
  {
    var n := |fsigma| - 1;
    dmean := new real[n, 2];
    for k := 0 to n
      invariant forall j :: 0 <= j < k ==>
                  dmean[j, 0] == fsigma[j + 1].ra - fsigma[0].ra && dmean[j, 1] == fsigma[j + 1].dec - fsigma[0].dec
    {
      dmean[k, 0] := fsigma[k + 1].ra - fsigma[0].ra;
      dmean[k, 1] := fsigma[k + 1].dec - fsigma[0].dec;
    }
  }

  /** One pass of the `predloc` loop body: the deviations of the sigma points
      from the central one, wrapped in place, and their covariance. */
  method HorizonPrediction(fsigma: seq<SkyPoint>, cosDeg: real -> real) returns (p: Prediction)
    requires 2 <= |fsigma|
    ensures p == PredictionOf(fsigma, cosDeg)
  {
    var rd := fsigma[0];
    var n := |fsigma| - 1;
    var dmean := Differences(fsigma);
    var cd := cosDeg(rd.dec);
    WrapRaColumn(dmean, cd);
    var devs := Rows(dmean);
    forall k | 0 <= k < n
      ensures devs[k] == SkyPoint(WrapDegrees(fsigma[k + 1].ra - rd.ra) * cd, fsigma[k + 1].dec - rd.dec)
    {
      assert devs[k] == SkyPoint(dmean[k, 0], dmean[k, 1]);
    }
    DeviationsElementwise(fsigma, cd, devs);
    p := Prediction(rd, Covariance(devs));
  }

  // ---------------------------------------------------------------------
  // predloc
  // ---------------------------------------------------------------------

  /** The prediction horizons, in minutes. */
  const PropTimes: seq<int> := [5, 15, 30, 60]

  /** The prediction `h` minutes after `epoch`: sigma points of the state at
      `epoch` propagated by h*60 seconds. */
  function PredictAt(h: int, epoch: real, rv: State, covar: Matrix, ssa: Ssa): (p: Prediction)
    requires SigmaPointsShape(ssa)
    ensures p.center == ssa.sigmaPoints(epoch, h as real * 60.0, rv, covar)[0]
  {
    PredictionOf(ssa.sigmaPoints(epoch, h as real * 60.0, rv, covar), ssa.cosDeg)
  }

  /** One entry per horizon, each the prediction at that horizon. */
  ghost predicate PredlocFor(predloc: map<int, Prediction>, epoch: real, rv: State, covar: Matrix, ssa: Ssa)
    requires SigmaPointsShape(ssa)
  {
    && predloc.Keys == {5, 15, 30, 60}
    && forall h :: h in predloc ==> predloc[h] == PredictAt(h, epoch, rv, covar, ssa)
  }

  /** The `for dt in prop_times` loop filling the `predloc` dict. */
  method BuildPredloc(epoch: real, rv: State, covar: Matrix, ssa: Ssa) returns (predloc: map<int, Prediction>)
    requires SigmaPointsShape(ssa)
    ensures PredlocFor(predloc, epoch, rv, covar, ssa)
  {
    predloc := map[];
    for i := 0 to |PropTimes|
      invariant predloc.Keys == set j | 0 <= j < i :: PropTimes[j]
      invariant forall h :: h in predloc ==> predloc[h] == PredictAt(h, epoch, rv, covar, ssa)
    {
      var dt := PropTimes[i];
      var fsigma := ssa.sigmaPoints(epoch, dt as real * 60.0, rv, covar);
      var p := HorizonPrediction(fsigma, ssa.cosDeg);
      predloc := predloc[dt := p];
    }
    assert (set j | 0 <= j < 4 :: PropTimes[j]) == {5, 15, 30, 60} by {
      assert PropTimes[0] == 5 && PropTimes[1] == 15 && PropTimes[2] == 30 && PropTimes[3] == 60;
    }
  }

  // ---------------------------------------------------------------------
  // iod_lmfit
  // ---------------------------------------------------------------------

  /** The outcome of the fit before it is packed into a tuple. */
  datatype FitOutcome =
    | Rejected
    | Accepted(rv: State, epoch: real, covar: Matrix, optimizer: LmResult, predloc: map<int, Prediction>)

  /** The fitting chain: guess from the pair, element fit, state at the final
      epoch, Cartesian fit. The returned state is the one the Cartesian fit starts from. */
  function Refine(arc: seq<ArcRow>, first: ArcRow, second: ArcRow, epochFinal: real, ssa: Ssa): (State, LmResult)
  {
    var (initRV, epoch) := ssa.circularGuess(first, second);
    var orb := ssa.elementFit(arc, epoch, initRV);
    var rvfinal := ssa.rvAt(orb, epochFinal);
    (rvfinal, ssa.cartesianFit(arc, epochFinal, rvfinal))
  }

  lemma NoRepeatedSite(rsite: seq<real>, site: real)
    requires IsMostCommon(rsite, site)
    ensures Count(rsite, site) < 2 <==> forall x :: x in rsite ==> Count(rsite, x) < 2
  {
  }

  /** `iod_lmfit(track, propagator)`. The ghost outputs name the chosen site
      and pair index. */
  method IodLmfit(track: seq<Observation>, ssa: Ssa) returns (out: Result<FitOutcome>, ghost site: real, ghost bestind: nat)
    requires SigmaPointsShape(ssa)
    ensures var rsite := Radii(BuildArc(track, ssa.earthOmega), ssa.siteRadius);
            out.Failure? <==> forall x :: x in rsite ==> Count(rsite, x) < 2
    ensures track == [] ==> out == Failure(UnboundLocalError("rsite_mostcommon"))
    ensures track != [] && out.Failure? ==> out == Failure(ValueError(ArgminEmpty))
    ensures out.Success? ==>
              var arc := BuildArc(track, ssa.earthOmega);
              var m := AtSite(arc, ssa.siteRadius, site);
              && IsMostCommon(Radii(arc, ssa.siteRadius), site)
              && BestIndex(Times(m)) == Success(bestind)
              && bestind + 1 < |m|
              && 0 < |arc|
              && var epochFinal := MaxTime(Times(arc));
                 var (rvfinal, lm) := Refine(arc, m[bestind], m[bestind + 1], epochFinal, ssa);
                 && (out.value.Accepted? <==> FitAccepted(lm.residual))
                 && (out.value.Accepted? ==>
                       && out.value.rv == rvfinal
                       && out.value.epoch == epochFinal
                       && out.value.covar == lm.covar
                       && out.value.optimizer == lm
                       && PredlocFor(out.value.predloc, epochFinal, rvfinal, lm.covar, ssa))
  {
    site, bestind := 0.0, 0;
    var arc := BuildArc(track, ssa.earthOmega);
    var rsite := Radii(arc, ssa.siteRadius);
    var mostCommon := MostCommonSite(rsite);
    if mostCommon.None? {
      return Failure(UnboundLocalError("rsite_mostcommon")), site, bestind;
    }
    var rr := mostCommon.value;
    site := rr;
    NoRepeatedSite(rsite, rr);
    var m := AtSite(arc, ssa.siteRadius, rr);
    var best := BestIndex(Times(m));
    if best.Failure? {
      return Failure(best.error), site, bestind;
    }
    var k := best.value;
    bestind := k;
    var epochFinal := MaxTime(Times(arc));
    var (rvfinal, lm) := Refine(arc, m[k], m[k + 1], epochFinal, ssa);
    var ok := FitAccepted(lm.residual);
    var predloc := BuildPredloc(epochFinal, rvfinal, lm.covar, ssa);
    if !ok {
      out := Success(Rejected);
    } else {
      out := Success(Accepted(rvfinal, epochFinal, lm.covar, lm, predloc));
    }
  }

  // ---------------------------------------------------------------------
  // Return tuples and main
  // ---------------------------------------------------------------------

  /** The Python values that travel in the returned tuple. */
  datatype PyValue =
    | PyNone
    | PyState(state: State)
    | PyEpoch(epoch: real)
    | PyMatrix(matrix: Matrix)
    | PyOptimizer(lm: LmResult)
    | PyPredloc(predloc: map<int, Prediction>)

  /** `rvfinal, epochfinal, covar, lmofinal, predloc`. */
  function AcceptTuple(o: FitOutcome): (t: seq<PyValue>)
    requires o.Accepted?
  {
    [PyState(o.rv), PyEpoch(o.epoch), PyMatrix(o.covar), PyOptimizer(o.optimizer), PyPredloc(o.predloc)]
  }

  /** The final `return` as written: six Nones on reject, five values on accept. */
  function ReturnTuple(o: FitOutcome): (t: seq<PyValue>)
    ensures |t| == if o.Rejected? then 6 else 5
    ensures o.Rejected? ==> forall i :: 0 <= i < |t| ==> t[i] == PyNone
    ensures o.Accepted? ==> t == AcceptTuple(o) && t[0] != PyNone
  {
    if o.Rejected? then [PyNone, PyNone, PyNone, PyNone, PyNone, PyNone] else AcceptTuple(o)
  }

  /** The final `return` with the reject tuple as long as the accept tuple. */
  function ReturnTupleCorrected(o: FitOutcome): (t: seq<PyValue>)
    ensures |t| == 5
    ensures t[0] == PyNone <==> o.Rejected?
    ensures o.Rejected? ==> forall i :: 0 <= i < |t| ==> t[i] == PyNone
    ensures o.Accepted? ==> t == AcceptTuple(o)
  {
    if o.Rejected? then [PyNone, PyNone, PyNone, PyNone, PyNone] else AcceptTuple(o)
  }

  /** What `main` does with one result. */
  datatype MainAction = Skip | Submit(rv: PyValue, epoch: PyValue, covar: PyValue, predloc: PyValue)

  /** `rv, epoch_gps, covar, _, predloc = iod_lmfit(...)` then `if rv is None: continue`. */
  function MainHandle(t: seq<PyValue>): (r: Result<MainAction>)
    ensures r.Failure? <==> |t| != 5
    ensures r.Success? ==> (r.value.Skip? <==> t[0] == PyNone)
    ensures r.Success? && r.value.Submit? ==> r.value == Submit(t[0], t[1], t[2], t[4])
  {
    if |t| > 5 then Failure(ValueError("too many values to unpack (expected 5)"))
    else if |t| < 5 then Failure(ValueError("not enough values to unpack (expected 5)"))
    else if t[0] == PyNone then Success(Skip)
    else Success(Submit(t[0], t[1], t[2], t[4]))
  }

  /** As written, a rejected fit makes `main` fail at the unpacking instead of skipping. */
  lemma RejectedFitBreaksMain()
    ensures MainHandle(ReturnTuple(Rejected)) == Failure(ValueError("too many values to unpack (expected 5)"))
  {
  }

  /** With the five-element reject tuple, `main` skips exactly the rejected fits
      and submits the accepted ones unchanged. */
  lemma CorrectedTupleHandled(o: FitOutcome)
    ensures MainHandle(ReturnTupleCorrected(o)).Success?
    ensures MainHandle(ReturnTupleCorrected(o)).value.Skip? <==> o.Rejected?
    ensures o.Accepted? ==>
              MainHandle(ReturnTupleCorrected(o)).value ==
                Submit(PyState(o.rv), PyEpoch(o.epoch), PyMatrix(o.covar), PyPredloc(o.predloc))
  {
  }
}

# Uncertainty metrics, LM-based IOD and Gaia photometry — a Dafny model

This project models three pieces of the satellite-tracking toolkit.

- **`UncertaintyMetrics`** models `xfiles/uncertainty_metrics.py`:
  - `chi2`: the chi-squared value of residuals under their covariances, in scalar or batch mode.
  - `cvm_chi2_test`: the Cramér–von Mises statistic of a chi-squared sample.
  - `cvm_to_alpha`: converts that statistic to a significance level by interpolating in the table of Stephens (1986), extended with illustrative entries.
  - `pearsons_chi`: the standardized count deviations in equal-probability bins.
- **`ProcessLmfit`** models the decision logic of `iod_lmfit` in `branches/iod/process_lmfit.py`:
  - the choice of the most common observing site by station radius, and of the closest pair in time at that site (non-positive gaps are penalized by 1e9);
  - the mean-square residual gate (`< 10`);
  - wrapping RA offsets into [-180, 180) and scaling them by cos(dec);
  - the population covariance of the sigma-point deviations at each horizon (5, 15, 30 and 60 minutes);
  - the returned tuple, and how `main` unpacks it and skips rejected fits.
- **`Photometry`** models `convert_gaia_magnitude` in `satist/photometry.py`.

Shared pieces:

- `Common` holds the Python outcome type `Result` and the exception kinds.
- `Sorting` holds the ascending sort used by `x[np.argsort(x)]` and `np.unique`. It proves that the sorted arrangement of a multiset is unique.

Collaborators are parameters of the model:

- scipy's `chi2.cdf` and `chi2.ppf`;
- `np.linalg.inv`, as a function returning `None` for a singular matrix;
- `np.sqrt` and the cosine;
- the `ssa` library's circular guess, optimizers, propagation and sigma points, which are fields of the datatype `ProcessLmfit.Ssa`.

The model asks their contracts only where a proof needs them: `ppf` strictly increasing, `sqrt` positive on positive input, and thirteen sigma points per call. `Chi2PositiveDefinite` also takes as a hypothesis that `inv` returns positive-definite inverses for the given covariances.

Where the code and its documentation disagree, the model follows the code:

- The RA wrap `((x + 180) % 360) - 180` with Python's floor modulo lands in [-180, 180), not (-180, 180]. `ProcessLmfit.WrapDegrees` states [-180, 180).
- The state returned by `iod_lmfit` is `rvfinal`, the starting point handed to the final optimizer, not that optimizer's result.
- `convert_gaia_magnitude` documents a magnitude in the target passband. The code returns the quadratic alone, and `gaia_g` is never used. `Photometry.DependsOnColourOnly` states this.

## Model

| member | source | states |
|---|---|---|
| UncertaintyMetrics.Inverses | xfiles/uncertainty_metrics.py:43 | succeeds iff every covariance is square and invertible; then entry i is the inverse of covariance i; otherwise a LinAlgError |
| UncertaintyMetrics.Chi2Batch | xfiles/uncertainty_metrics.py:43-44 | succeeds iff the stack is non-empty, the lengths agree and each residual conforms to its inverse; entry i is dx_i^T C_i^-1 dx_i; never the shape error |
| UncertaintyMetrics.QuadForm | xfiles/uncertainty_metrics.py:44 | x^T A x, the term the einsum forms for one pair; its properties are stated by QuadFormHomogeneous, QuadFormZero and Chi2PositiveDefinite |
| UncertaintyMetrics.Einsum | xfiles/uncertainty_metrics.py:44 | succeeds iff the stack of inverses is non-empty, there are as many residuals as inverses and each residual conforms to its inverse; otherwise a ValueError; entry i is the quadratic form of pair i |
| UncertaintyMetrics.Chi2 | xfiles/uncertainty_metrics.py:20-47 | the shape ValueError iff the ranks are not (1,2) or (2,3); a well-shaped call succeeds iff the stack is non-empty, the lengths agree, every matrix is square and invertible and every residual conforms; a scalar result exactly in scalar mode, equal to the quadratic form; in batch mode one quadratic form per pair |
| UncertaintyMetrics.Chi2PositiveDefinite | xfiles/uncertainty_metrics.py:43-47 | when the inverses of the given covariances are positive definite, each chi^2 is non-negative and zero exactly for a zero residual, in both modes |
| UncertaintyMetrics.ScalarIsBatchOfOne | xfiles/uncertainty_metrics.py:35-38 | scalar mode is batch mode on the wrapped pair; it succeeds or fails together with it and yields its element 0 |
| UncertaintyMetrics.QuadFormHomogeneous | xfiles/uncertainty_metrics.py:44 | scaling a residual by c scales its chi^2 by c^2 |
| UncertaintyMetrics.ZeroResidualZeroChi2 | xfiles/uncertainty_metrics.py:44-47 | a zero residual gives chi^2 = 0 in both modes |
| UncertaintyMetrics.CvmTerm | xfiles/uncertainty_metrics.py:73 | each summand of the statistic is non-negative |
| UncertaintyMetrics.CvmOfSorted | xfiles/uncertainty_metrics.py:70-73 | the statistic of a sorted non-empty sample is at least 1/(12n) |
| UncertaintyMetrics.CvmStatistic | xfiles/uncertainty_metrics.py:68-73 | succeeds iff the sample is non-empty, with ZeroDivisionError otherwise; the value is at least 1/(12n) |
| UncertaintyMetrics.CvmChi2Test | xfiles/uncertainty_metrics.py:50-77 | without alpha, the statistic; with alpha, cvm_to_alpha of the statistic and n; an empty sample raises ZeroDivisionError |
| UncertaintyMetrics.CvmOrderIndependent | xfiles/uncertainty_metrics.py:68-77 | any rearrangement of the sample gives the same result (the argsort makes order irrelevant) |
| UncertaintyMetrics.TableOrdered | xfiles/uncertainty_metrics.py:106-112 | the extended table has 16 entries; critical values strictly increase and alphas strictly decrease from 0.99 to 0.001 |
| UncertaintyMetrics.Interp | xfiles/uncertainty_metrics.py:113 | np.interp returns the first value at or left of the first knot and the last value at or right of the last knot |
| UncertaintyMetrics.InterpBounds | xfiles/uncertainty_metrics.py:113 | np.interp stays between the first and last table value (clamped outside the table) |
| UncertaintyMetrics.InterpMonotone | xfiles/uncertainty_metrics.py:113 | on a decreasing table, np.interp is non-increasing in its argument |
| UncertaintyMetrics.InterpAtKnot | xfiles/uncertainty_metrics.py:113 | at a tabulated abscissa np.interp returns the tabulated ordinate |
| UncertaintyMetrics.CorrectedStatistic | xfiles/uncertainty_metrics.py:104 | the finite-sample correction (ts - 0.4/n + 0.6/n^2)/(1 + 1/n) lowers every non-negative statistic; its order-preservation is CorrectedMonotone |
| UncertaintyMetrics.CorrectedMonotone | xfiles/uncertainty_metrics.py:104 | the small-sample correction preserves the order of statistics for n >= 5 |
| UncertaintyMetrics.CvmToAlpha | xfiles/uncertainty_metrics.py:80-114 | ValueError "n must be >= 5" iff n < 5; otherwise a probability in [0.001, 0.99] |
| UncertaintyMetrics.CvmToAlphaMonotone | xfiles/uncertainty_metrics.py:102-114 | a larger statistic never yields a larger alpha |
| UncertaintyMetrics.CvmToAlphaAtCriticalValue | xfiles/uncertainty_metrics.py:104-113 | a corrected statistic equal to critical value j yields alpha j |
| UncertaintyMetrics.InnerCuts | xfiles/uncertainty_metrics.py:118-120 | nbin - 1 interior cuts, cut k being ppf((k+1)/nbin) |
| UncertaintyMetrics.InnerCutsIncreasing | xfiles/uncertainty_metrics.py:118-120 | the nbin-1 interior cuts strictly increase when ppf does |
| UncertaintyMetrics.BinOf | xfiles/uncertainty_metrics.py:121 | the number of interior cuts below the value, a bin index between 0 and the number of interior cuts; for increasing cuts this is searchsorted minus one |
| UncertaintyMetrics.Bins | xfiles/uncertainty_metrics.py:121 | one bin index per sample value, in sample order |
| UncertaintyMetrics.BinOfBrackets | xfiles/uncertainty_metrics.py:119-121 | a value falls in bin i iff the cuts on either side of bin i bracket it (left cut exclusive, right cut inclusive) |
| UncertaintyMetrics.BinCount | xfiles/uncertainty_metrics.py:123 | np.bincount with minlength nbin: nbin entries, entry i counts the occurrences of i, and the entries total the sample size |
| UncertaintyMetrics.StandardizedSum | xfiles/uncertainty_metrics.py:129 | the sum of (counts - e)/r is (total - len*e)/r |
| UncertaintyMetrics.PearsonsChi | xfiles/uncertainty_metrics.py:117-129 | ValueError for negative nbin, ZeroDivisionError for nbin = 0, NaN for an empty sample; otherwise nbin deviations (count_i - n/nbin)/sqrt(n/nbin) summing to zero |
| UncertaintyMetrics.PearsonBinning | xfiles/uncertainty_metrics.py:118-123 | every sample value lands in the bin whose cuts bracket it, and the bin counts total the sample size |
| ProcessLmfit.StationVelocity | branches/iod/process_lmfit.py:43-46 | the station velocity omega·up × r is perpendicular to r, parallel to the equatorial plane (v.z = 0), of speed omega times the distance from the axis, and eastward: (r × v).z = omega (x^2 + y^2) |
| ProcessLmfit.BuildArc | branches/iod/process_lmfit.py:32-46 | one arc row per observation in track order, carrying its angles, time and station, the station velocity and the 10 arcsec uncertainty |
| ProcessLmfit.Radii | branches/iod/process_lmfit.py:53 | rsite: entry k is the rounded radius of station k |
| ProcessLmfit.Times | branches/iod/process_lmfit.py:62 | entry k is the time of row k |
| ProcessLmfit.MostCommonSite | branches/iod/process_lmfit.py:53-60 | no site is bound iff there are no observations; otherwise the site has maximal count and is the smallest among equally frequent radii |
| ProcessLmfit.MostCommonUnique | branches/iod/process_lmfit.py:54-60 | the most common site so characterized is unique |
| ProcessLmfit.AtSite | branches/iod/process_lmfit.py:61 | the mask keeps exactly Count(rsite, site) rows, all at that site |
| ProcessLmfit.AtSiteFromArc | branches/iod/process_lmfit.py:61 | every kept row is a row of the arc |
| ProcessLmfit.AtSiteInOrder | branches/iod/process_lmfit.py:61-62 | the site rows keep their order: arc row k at the site is entry p of the selection, p being the number of site rows before k |
| ProcessLmfit.MaxTime | branches/iod/process_lmfit.py:72 | np.max is an observation time no smaller than any other |
| ProcessLmfit.PenalizedGaps | branches/iod/process_lmfit.py:62-63 | n - 1 gaps of n times, gap j being t[j+1] - t[j] plus 1e9 when it is not positive |
| ProcessLmfit.ArgMin | branches/iod/process_lmfit.py:63 | np.argmin is the first position of a least element |
| ProcessLmfit.BestIndex | branches/iod/process_lmfit.py:62-63 | ValueError (argmin of an empty sequence) iff fewer than two rows at the site; otherwise the first gap with the least penalized value |
| ProcessLmfit.ChosenGapLeastPositive | branches/iod/process_lmfit.py:62-63 | when some gap is positive and all gaps are under 5e8 s in size, the chosen gap is the least positive gap |
| ProcessLmfit.FitAccepted | branches/iod/process_lmfit.py:81 | accepted iff the residual is non-empty and its sum of squares is below 10 times its length |
| ProcessLmfit.GateBoundaryRejected | branches/iod/process_lmfit.py:81 | a mean square exactly 10 is rejected |
| ProcessLmfit.GateRejectsOutlier | branches/iod/process_lmfit.py:81 | one residual whose square reaches 10 times the residual count rejects the fit |
| ProcessLmfit.Mod360 | branches/iod/process_lmfit.py:103 | Python's float x % 360: in [0, 360) and differing from x by whole turns |
| ProcessLmfit.WrapDegrees | branches/iod/process_lmfit.py:103 | the wrapped value lies in [-180, 180) and differs from the input by whole turns |
| ProcessLmfit.WrapPeriodic | branches/iod/process_lmfit.py:103 | adding k turns to the input does not change the wrapped value |
| ProcessLmfit.WrapFixesPrincipal | branches/iod/process_lmfit.py:103 | values already in [-180, 180) are unchanged |
| ProcessLmfit.WrapRaColumn | branches/iod/process_lmfit.py:103 | in place: column 0 becomes its wrap times cd, column 1 is unchanged |
| ProcessLmfit.Deviations | branches/iod/process_lmfit.py:101-103 | one deviation per non-central sigma point; the dec entry is the plain difference from the centre, and the RA entry lies within ±180·cd for cd ≥ 0 |
| ProcessLmfit.DeviationsTurnInvariant | branches/iod/process_lmfit.py:101-103 | sigma points whose RAs differ by whole turns give the same deviations |
| ProcessLmfit.Covariance | branches/iod/process_lmfit.py:104 | np.cov(ddof=0) of the deviations is symmetric with a non-negative diagonal |
| ProcessLmfit.PopCovShiftInvariant | branches/iod/process_lmfit.py:101-104 | the population covariance is unchanged when one column is shifted by a constant |
| ProcessLmfit.PredictionOf | branches/iod/process_lmfit.py:100-105 | a predloc entry: the central sigma point with a symmetric covariance whose diagonal is non-negative |
| ProcessLmfit.PredictAt | branches/iod/process_lmfit.py:86-105 | the entry for h minutes is centred on the first sigma point of the state at the final epoch propagated by h·60 seconds |
| ProcessLmfit.Differences | branches/iod/process_lmfit.py:101 | a fresh n x 2 array whose row j is sigma point j+1 minus the central one, RA in column 0 and Dec in column 1 |
| ProcessLmfit.HorizonPrediction | branches/iod/process_lmfit.py:99-105 | the entry built with the dmean array is the central sigma point with the covariance of the wrapped, scaled deviations |
| ProcessLmfit.BuildPredloc | branches/iod/process_lmfit.py:85-105 | predloc has exactly the keys 5, 15, 30, 60, each the prediction at that many minutes after the given final epoch |
| ProcessLmfit.Refine | branches/iod/process_lmfit.py:65-80 | the fitting chain: circular guess from the pair, element fit, state at the final epoch, Cartesian fit from that state (a composition of the collaborators, with no contract of its own) |
| ProcessLmfit.IodLmfit | branches/iod/process_lmfit.py:13-110 | raises iff no station radius occurs twice (UnboundLocalError for an empty track, argmin ValueError otherwise); on success the site is the most common one, the pair is the best index, acceptance is the gate on the final residual, and an accepted result carries rvfinal, the latest time, the optimizer's covariance and the full predloc |
| ProcessLmfit.ReturnTuple | branches/iod/process_lmfit.py:107-110 | as written: six Nones for a rejected fit; for an accepted fit the five values rvfinal, epochfinal, covar, lmofinal, predloc |
| ProcessLmfit.ReturnTupleCorrected | branches/iod/process_lmfit.py:107-110 | five values in both cases, the first being None exactly for a rejected fit |
| ProcessLmfit.MainHandle | branches/iod/process_lmfit.py:136-139 | unpacking fails iff the tuple does not have five values; a leading None is skipped; otherwise rv, epoch, covar and predloc are submitted |
| ProcessLmfit.RejectedFitBreaksMain | branches/iod/process_lmfit.py:107-108 | as written, a rejected fit makes main raise "too many values to unpack" |
| ProcessLmfit.CorrectedTupleHandled | branches/iod/process_lmfit.py:107-139 | with a five-value reject tuple, main succeeds, skips exactly the rejected fits and submits the accepted fields unchanged |
| Photometry.ConvertGaiaMagnitude | satist/photometry.py:7-32 | KeyError iff the passband is not one of the table's keys; otherwise c0 + c1 x + c2 x^2 with x = BP - RP and that passband's coefficients |
| Photometry.Quadratic | satist/photometry.py:30-32 | c0 + c1 x + c2 x^2, the polynomial the conversion evaluates; at x = 0 it is the constant coefficient |
| Photometry.KnownFilters | satist/photometry.py:23-28 | exactly the four passbands 2MASS_Ks, 2MASS_H, 2MASS_J and SDSS12_i are known |
| Photometry.DefaultFilterConverts | satist/photometry.py:7-32 | the default 2MASS_Ks always converts, with its coefficients |
| Photometry.DependsOnColourOnly | satist/photometry.py:30-32 | the result depends neither on G nor on a common shift of BP and RP |
| Photometry.ZeroColour | satist/photometry.py:30-32 | BP = RP gives the constant coefficient |
| Sorting.Sort | xfiles/uncertainty_metrics.py:69 | the reordering is ascending and a permutation of the sample |
| Sorting.SortPermutationInvariant | xfiles/uncertainty_metrics.py:69 | samples with the same values and multiplicities sort to the same sequence |
| Sorting.Unique | branches/iod/process_lmfit.py:54 | np.unique: strictly increasing, with exactly the values of the input |

## Left out

- Floating point is not modelled. Throughout, values are exact reals, so rounding and NaN or infinite inputs are out of scope. The only NaNs modelled are the ones the code produces from an empty sample: the `NotANumber` outcome of `pearsons_chi`, and the rejected gate on an empty residual.
- Numpy's broadcasting of size-1 axes in `np.einsum` is not modelled. Any length mismatch between residuals and covariances is reported as the broadcast ValueError.
- UncertaintyMetrics.PearsonsChi: the exact text numpy uses for a negative `nbin + 1` in `np.linspace` is not reproduced. The model only says it is a ValueError.
- UncertaintyMetrics.Chi2: the model does not derive positive-definiteness of an inverse from a symmetric positive-definite covariance. `Chi2PositiveDefinite` takes it as a hypothesis about the inverses of the given covariances only, so non-negativity of chi^2 holds under that hypothesis.
- UncertaintyMetrics.PearsonsChi: `BinOf` counts the cuts below a value. This agrees with numpy's binary search only for increasing cuts, that is, for a monotone `ppf`, as scipy's is. For a non-monotone `ppf` the model does not reproduce numpy's bins.
- The chi-squared distribution (`scipy.stats.chi2.cdf` and `ppf`), matrix inversion, square roots and cosines are supplied functions. Their numerical behaviour is not modelled.
- The astropy table and unit handling of `iod_lmfit` are not modelled: the arc is a sequence of plain rows in degrees, seconds and metres.
- In `iod_lmfit`, the following are fields of `ProcessLmfit.Ssa` and are not modelled:
  - the `ssa` circular guess, the equinoctial-element and Cartesian LM optimizers with their eccentricity prior, and propagation with the chosen propagator;
  - `fictionalrd`, `sigma_points` and `np.degrees`.
- The site radius (norm, conversion to km, rounding to 3 decimals) is folded into `Ssa.siteRadius`.
- `ssa.utils.unit2lb` is left out: its result is never used.
- ProcessLmfit.IodLmfit: the optimizer object is represented only by its covariance and residual.
- `main` is reduced to the unpacking and the skip of rejected fits. Argument parsing, file globbing, reading CSV files, the conversions to float and the YAML output are I/O and are left out.
- ProcessLmfit.ChosenGapLeastPositive: gaps of 5e8 s or more, where the 1e9 penalty no longer separates positive from non-positive gaps, are excluded rather than characterized.
- The other files of the repository are not part of this model: `satist/instrument.py`, `satist/tracker.py`, `branches/track_images/score_submission.py` and `setup.py`.

## Findings

| source | as written | input that shows it | evidently intended | confidence | as-written member | corrected member |
|---|---|---|---|---|---|---|
| branches/iod/process_lmfit.py:107-108 and 136-137 | a rejected fit returns six `None`s, but `main` unpacks five values | any track whose final residual has a mean square of at least 10 | return five `None`s so that `main` reaches `if rv is None: continue` and skips the track | not executed | ProcessLmfit.RejectedFitBreaksMain | ProcessLmfit.CorrectedTupleHandled |

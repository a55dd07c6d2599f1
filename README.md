# Active-optics wavefront estimator and wavefront-sensor bookkeeping

This project models two parts of the LSST active-optics simulation loop and proves properties of them in Dafny.

**The estimator (`aosEstimator`).**
- It reads an `.esti` parameter file line by line: keys, `###` comment blocks, and the option lines that hold the 0/1 masks `compIdx` and `zn3Idx`.
- It builds the corner sensitivity matrix `A` from the sensitivity table, selects `Ause` with the two masks and inverts it with a truncated pseudo-inverse.
- On each call to `estimate`, it turns the measured corner Zernikes into `yfinal`, the degrees-of-freedom estimate `xhat` and the residual `yresi`.

**The wavefront-sensor object (`aosWFS`).**
- Instrument rules: sensor counts, the defocus offset taken from the instrument name, and the base name.
- Tiling of the covariance matrix.
- The pixel arithmetic that cuts a postage stamp around the centroid.
- The flips and rotations of the corner-raft stamps.
- The star catalog: its writer and its parser.
- The rows `runcwfs` returns.

Modules:
- `Wrappers`: Option and Result.
- `PyText`: Python's `strip`, `split` and `startswith`.
- `PyNumbers`: `int()`, `float()` and `%9.6f`.
- `Matrices`: the numpy indexing used.
- `EstimatorParams`: the parameter reader as a state machine over lines.
- `Sensitivity`: the matrix build.
- `Estimator`: the `AosEstimator` class, with the reading loop, the build and `Estimate`.
- `WfsGeometry`: instrument rules, covariance, stamp windows and reorientation.
- `WfsCatalog`: catalog coordinates, writer, reader and result rows.

The estimator object keeps its state in fields, as the Python object does.
- `ReadParams` is a `while` loop over the file's lines. Its contract ties the new settings to the pure reader `Run`.
- `Estimate` changes `yfinal`, `xhat` and `yresi` exactly as the specification function `EstimateSpec` says, including what is left behind when a step raises.
- The lemmas about `Run` and `EstimateSpec` state what the reader and the estimate promise.

Python semantics kept explicitly:
- **Reader state.** The toggle `iscomment = ~iscomment` starts from `False`, so every `###` line flips the block. An option line read before any `icomp`/`izn3` key raises `UnboundLocalError`; this is `MaskBeforeKey`. Assignments made before an exception stay in place.
- **Text and numbers.** For masks written with 0s and 1s, `np.fromstring(..., dtype=bool, sep=' ')` after the `1`→`1 ` and `0`→`0 ` rewrite reads one flag per digit, which is `MaskOf`. `int()` truncates toward zero, and `s/2` is true division.
- **Array indexing.** Negative slice bounds follow Python's rules. `np.repeat`, `np.ix_`, `np.tile`, `np.rot90` and `np.flipud` each have a model.
- **Broadcasting.** `-=` and `+=` succeed only on equal lengths or a length-1 operand.

## Model

| member | source | states |
|---|---|---|
| EstimatorParams.KeyOf | source/aosEstimator.py:22-50 | the key chosen for a line is one the line starts with, taken in the `elif` order |
| EstimatorParams.MaskOfBits | source/aosEstimator.py:51-60 | a line of 0s and 1s gives one mask entry per character, true exactly where the character is '1' |
| EstimatorParams.MaskOfJoin | source/aosEstimator.py:51-60 | spaces between groups of flags are skipped: the mask of `a b` is the mask of a followed by the mask of b |
| EstimatorParams.RunAppend | source/aosEstimator.py:16-63 | reading a + b is reading a, then reading b from where a stopped; an exception in a ends the read |
| EstimatorParams.CommentOrBlankInert | source/aosEstimator.py:17-21 | a blank line or a single-# comment line changes nothing |
| EstimatorParams.ToggleLine | source/aosEstimator.py:18-19 | a line starting with ### flips the comment-block flag and does nothing else |
| EstimatorParams.InsideBlockInert | source/aosEstimator.py:18-21 | inside a comment block, lines without ### change nothing |
| EstimatorParams.CommentBlockInert | source/aosEstimator.py:18-21 | a whole ### ... ### block leaves the state exactly as before it |
| EstimatorParams.KeyOfPrefix | source/aosEstimator.py:22-49 | no key is a prefix of an earlier key in the `elif` chain, so a line starting with a key is dispatched to that key |
| EstimatorParams.KeyOfKeyLine | source/aosEstimator.py:22-49 | a line `key value` is dispatched to that key, whatever the other keys' prefixes |
| EstimatorParams.KeyLineWords | source/aosEstimator.py:23-45 | `line.split()` of `key value` is exactly [key, value] |
| EstimatorParams.StepOnKeyLine | source/aosEstimator.py:17-49 | outside a comment, a key line is handled by that key's branch |
| EstimatorParams.IntKeyLine | source/aosEstimator.py:17-35 | outside a comment, any line starting with `n_bending_M1M3`, `n_bending_M2`, `znmax`, `n_singular_inf` or `normalize_A` whose second whitespace-separated word is an integer n stores n (`normalize_A` stores n != 0) and changes nothing else, whatever the spacing, the spelling of n or the words after it |
| EstimatorParams.WordKeyLine | source/aosEstimator.py:17-25 | outside a comment, any line starting with `estimator_strategy` or `senMFile` stores its second word and changes nothing else |
| EstimatorParams.IndexKeyLine | source/aosEstimator.py:17-49 | outside a comment and without an argument, any line starting with `icomp`/`izn3` whose second word is an integer n stores n, selects that mask's array and resets the count to 0 |
| EstimatorParams.KeyLineErrors | source/aosEstimator.py:22-49 | a key line with no second word raises IndexError; an integer key (icomp/izn3 without an argument included) whose second word is not an integer raises ValueError |
| EstimatorParams.IntKeyCanonical | source/aosEstimator.py:26-35 | the line `key str(n)` for an integer key stores n |
| EstimatorParams.WordKeyCanonical | source/aosEstimator.py:22-25 | the line `key w` for a one-word w stores w |
| EstimatorParams.IndexKeyCanonical | source/aosEstimator.py:36-49 | the line `icomp str(n)` (`izn3 str(n)`) without an argument stores n and starts counting for that mask |
| EstimatorParams.ArgumentOverrides | source/aosEstimator.py:37-47 | an `icomp`/`izn3` argument wins over the file's value, and the line's own value is not read |
| EstimatorParams.KeyOfDigitLine | source/aosEstimator.py:50-53 | a line starting with a digit matches no key, so it reaches the option-line branch |
| EstimatorParams.StepOnOptionLine | source/aosEstimator.py:50-62 | outside a comment, a digit line is handled as an option line |
| EstimatorParams.CountsOptionLines | source/aosEstimator.py:53-54 | option lines before the selected one only advance the count |
| EstimatorParams.SelectsNthOptionLine | source/aosEstimator.py:53-62 | the option line whose number equals icomp (izn3) becomes compIdx (zn3Idx), and the array selection is cleared |
| EstimatorParams.MaskNotOverwritten | source/aosEstimator.py:55-62 | once a mask is taken, later option lines leave every setting unchanged |
| Estimator.AosEstimator.ReadParams | source/aosEstimator.py:14-64 | the loop leaves the settings `Run` gives for the whole file, or reports the exception `Run` raises |
| Estimator.AosEstimator.ReadLine | source/aosEstimator.py:17-62 | one loop iteration updates the settings, the comment flag and the array cursor as `Step` does, or raises its exception |
| Estimator.AosEstimator.ReadKey | source/aosEstimator.py:22-49 | one key branch updates the settings as `KeyLine` does |
| Estimator.AosEstimator.ReadOptionLine | source/aosEstimator.py:50-62 | the option-line branch updates the count and mask as `OptionLine` does |
| Sensitivity.Tensor | source/aosEstimator.py:71-72 | the reshape to (-1, zn3Max, ndofA) succeeds exactly when both are positive and divide the table, giving blocks of that shape |
| Sensitivity.TensorEntry | source/aosEstimator.py:72 | block q, row m, column j is table entry (q·zn3Max + m)·ndofA + j |
| Sensitivity.ColumnOrderIdentity | source/aosEstimator.py:73-75 | concatenating range(10+nB13) and range(10+nB13, 10+nB13+nB2) is range(ndofA) |
| Sensitivity.ReselectIdentity | source/aosEstimator.py:73-75 | selecting the columns range(ndofA) returns the blocks unchanged |
| Sensitivity.ReselectColumns | source/aosEstimator.py:73-75 | selecting columns succeeds exactly when every index is in range, keeping the block count and rows |
| Sensitivity.CornerRows | source/aosEstimator.py:81 | row q·zn3Max + m of A is row m of the q-th of the last four blocks |
| Sensitivity.Repeat4Entries | source/aosEstimator.py:82 | np.repeat(zn3Idx, 4) has 4·len entries and entry i is zn3Idx[i div 4] |
| Sensitivity.Repeat4Count | source/aosEstimator.py:82 | the repeated mask has four times as many true entries |
| Sensitivity.SubMatrix | source/aosEstimator.py:83 | A[np.ix_(rows, cols)] succeeds exactly when the masks fit A's shape and has the true counts as its shape |
| Sensitivity.SubMatrixByRank | source/aosEstimator.py:83 | A[i][j] with both masks true lands at the masks' ranks of i and j in Ause |
| Sensitivity.SubMatrixFromMasked | source/aosEstimator.py:83 | each entry of Ause is the A entry at the r-th true row and the c-th true column |
| Sensitivity.NormalizeKeeps | source/aosEstimator.py:92-96 | normalize_A true fails (dofUnitMat is never assigned); false gives Anorm == Ause |
| Sensitivity.Truncate | source/aosEstimator.py:103-105 | siginv keeps its length and zeroes its last nSingularInf entries only when nSingularInf > 1 |
| Sensitivity.PadDiagonal | source/aosEstimator.py:106-109 | diag(siginv) padded with zero columns to Ua's width, with siginv on the diagonal and zeros elsewhere |
| Sensitivity.PseudoInverseShape | source/aosEstimator.py:101-110 | the pseudo-inverse exists exactly when Anorm has no more columns than rows, and it has the transposed shape |
| Sensitivity.PseudoInverseEntry | source/aosEstimator.py:106-110 | Ainv[i][j] is the sum over k of VaT[k][i]·siginv[k]·Ua[j][k] |
| Sensitivity.PseudoInverseTruncated | source/aosEstimator.py:103-110 | Ainv[i][j] sums only the first n − nSingularInf singular directions when nSingularInf > 1, otherwise all of them |
| Sensitivity.Inverse | source/aosEstimator.py:101-110 | Ainv exists exactly when the strategy is "pinv", and then has Anorm's transposed shape |
| Sensitivity.BuildCorner | source/aosEstimator.py:66-81 | zn3Max = znMax − 3 and ndofA = nB13 + nB2 + 10 are positive when the build succeeds, and A has ndofA columns |
| Sensitivity.CornerKeepsTensor | source/aosEstimator.py:71-75 | the column re-selection leaves the reshaped table unchanged |
| Sensitivity.BuildUsable | source/aosEstimator.py:82-110 | zn3IdxAx4 is the repeated zn3Idx, Ause is A[ix_(zn3IdxAx4, compIdx)], Anorm == Ause, and Ainv is present only for "pinv" |
| Sensitivity.BuildModel | source/aosEstimator.py:66-110 | the whole build: every needed setting present, normalize_A true fails, and the shapes and selections of A, Ause, Anorm and Ainv |
| Estimator.AosEstimator.BuildMatrices | source/aosEstimator.py:66-110 | the object's matrices are the ones `BuildModel` gives, or the build error is reported |
| Estimator.AosEstimator.Load | source/aosEstimator.py:12-110 | the constructor reads the file, then builds; the model fits the settings it was built from |
| Estimator.Broadcast | source/aosEstimator.py:117 | numpy broadcasting of a vector to n: defined exactly for length n or 1, with entries copied or repeated |
| Estimator.MeasurementEntries | source/aosEstimator.py:113-115 | aa[-4:, 3:znMax].reshape(-1,1) has 4·(znMax−3) entries; entry q·(znMax−3)+j is aa[rows−4+q][3+j] |
| Estimator.EstimateSucceeds | source/aosEstimator.py:112-121 | estimate returns normally exactly when yfinal exists, intrinsic4c broadcasts, Ainv exists, yfinal has 4·len(zn3Idx) terms, compIdx has ndofA entries and every zn3Idx entry is true |
| Estimator.FitBroadcasts | source/aosEstimator.py:121 | a fit with four terms per kept zn3Idx entry broadcasts onto yfinal, which has four per entry, exactly when every entry is kept |
| Estimator.EstimateScatters | source/aosEstimator.py:113-121 | once line 119 runs (a measurement, an intrinsic vector that broadcasts, Ainv, and masks of the right lengths), xhat is 0 at every degree of freedom compIdx leaves out and xhat[compIdx] == Ainv · yfinal[zn3IdxAx4], with any zn3Idx mask; the call then either returns or fails only at the residual broadcast, leaving yresi as the copy of yfinal |
| Estimator.EstimateResidual | source/aosEstimator.py:120-121 | yresi[i] == yfinal[i] − (Anorm · xhat[compIdx])[i] for every term |
| Estimator.EstimateSubtracts | source/aosEstimator.py:113-117 | once a measurement exists, yfinal is the measurement minus intrinsic4c entry by entry when the lengths agree, minus its single entry from every term when it has length 1, and otherwise line 117 raises and leaves yfinal as the unsubtracted measurement |
| Estimator.RepeatedSubtraction | source/aosEstimator.py:113-117 | without sensoroff, two calls subtract intrinsic4c twice from the same yfinal |
| Estimator.AosEstimator.Estimate | source/aosEstimator.py:112-121 | yfinal, xhat and yresi become what `EstimateSpec` gives, including the partial updates left when a step raises |
| WfsGeometry.HeadIsPrefix | source/aosWFS.py:28 | `s[:len(p)] == p` holds exactly when s starts with p |
| WfsGeometry.LayoutOf | source/aosWFS.py:25-31 | comcam instruments have 9 sensors, 2 runs and 1 exposure; all others have 4, 1 and 2 |
| WfsGeometry.OffsetOf | source/aosWFS.py:33-37 | the intra and extra offsets are opposite; a name without an offset suffix gives (−1.5, 1.5); a name with one fails exactly when the last two characters do not parse as a float, and otherwise the extra offset is that number divided by 10 |
| WfsGeometry.OffsetFromDigits | source/aosWFS.py:34-37 | `comcamDD` and `lsstDD` give offsets ∓DD/10 |
| WfsGeometry.BaseName | source/aosWFS.py:51-53 | the data-directory name is a prefix of the instrument name and at most two characters shorter |
| WfsGeometry.BaseNameDropsDigits | source/aosWFS.py:52-53 | two trailing digits are dropped |
| WfsGeometry.BaseNameKeeps | source/aosWFS.py:52-53 | a name whose last two characters are not all digits (such as `lsst5`) is kept whole |
| WfsGeometry.BaseNameKeepsOneDigit | source/aosWFS.py:52-53 | a name ending in a non-digit and one digit keeps the digit |
| WfsGeometry.CeilQuarter | source/aosWFS.py:65 | ceil(nWFS/4): the least q with 4q ≥ nWFS |
| WfsGeometry.Tile | source/aosWFS.py:66 | np.tile(covM, (n, n)) has n times covM's rows and columns |
| WfsGeometry.CovarianceTiles | source/aosWFS.py:64-69 | with more than 4 sensors, covM is a square of side znwcs3·nWFS whose (i, j) entry is covM86[i mod R][j mod C]·1e-6 |
| WfsGeometry.CovarianceUntiled | source/aosWFS.py:64-69 | with at most 4 sensors, covM is covM86·1e-6 |
| WfsGeometry.Configure | source/aosWFS.py:23-69 | the sensor object's layout, offsets, base name, znwcs3 and covariance are those given by the rules above; it fails with OffsetNotANumber when the offset suffix is not a number, otherwise with NegativeDimension when numTerms < 3 (np.zeros at lines 48-49 is given a negative size), and succeeds exactly when neither happens |
| WfsGeometry.StampX | source/aosWFS.py:95-104 | lsst pulls the intra stamp 360 px left of px0 and the extra stamp to px0 + 360 − chip width; comcam uses px0; any other instrument leaves px unset |
| WfsGeometry.StampXSeparation | source/aosWFS.py:95-102 | on lsst the extra x minus the intra x is 720 − chip width |
| WfsGeometry.WideWindow | source/aosWFS.py:108-111 | the centroid window starts at max(0, p − 2s), ends at p + 2s and is 4s wide when not clipped |
| WfsGeometry.CentroidOffset | source/aosWFS.py:112-119 | the offset places the stamp centre at the centroid inside the window: p + offset == window start + centroid + 1, with the clipping correction |
| WfsGeometry.StampWindowCentred | source/aosWFS.py:121-125 | the stamp is s pixels wide and starts at floor(window start + centroid + 1 − s/2) |
| WfsGeometry.FlipUd | source/aosWFS.py:135-139 | np.flipud reverses the rows |
| WfsGeometry.RotQuarter | source/aosWFS.py:135-139 | np.rot90 turns the array a quarter counter-clockwise |
| WfsGeometry.ReorientHalf | source/aosWFS.py:135 | flipud(rot90(flipud(psf), 2)) reverses both axes |
| WfsGeometry.ReorientOne | source/aosWFS.py:139 | flipud(rot90(flipud(psf), 1)) is the transpose mirrored in rows |
| WfsGeometry.ReorientThree | source/aosWFS.py:137 | flipud(rot90(flipud(psf), 3)) is the other quarter turn, stated entry by entry |
| WfsGeometry.ReorientHalfInvolution | source/aosWFS.py:135 | the half-turn reorientation undoes itself |
| WfsGeometry.ReorientQuarterInverse | source/aosWFS.py:137-139 | the one- and three-quarter reorientations undo each other in either order, so no pixel is lost or duplicated |
| WfsGeometry.OrientStamp | source/aosWFS.py:127-139 | on lsst, field nField is turned half way round (pixel (i, j) from (R−1−i, C−1−j)), nField+1 takes pixel (i, j) from (j, C−1−i) and nField+3 from (R−1−j, i), with the shape swapped for the quarter turns; every other field and instrument keeps its stamp |
| WfsGeometry.OrientStampUndo | source/aosWFS.py:127-139 | each corner stamp is only turned: the opposite turn (2, 1 and 3 for nField, nField+1 and nField+3) gives back the stamp cut from the chip |
| WfsCatalog.CatalogCoords | source/aosWFS.py:216-241 | the intra and extra positions are symmetric about the field point; lsst writes only fields 31-34, shifted 0.020 degrees in x or y with the sign per field; comcam writes the field point twice |
| WfsCatalog.WriteCatalog | source/aosWFS.py:208-242 | the loop writes exactly `CatalogText`: one line per written field, in field order |
| WfsCatalog.ParseLine | source/aosWFS.py:249-255 | a line parses exactly when it has at least six words and the first four are floats; the task is (word 4, (w0, w1), word 5, (w2, w3)) |
| WfsCatalog.ParseCatalogStops | source/aosWFS.py:248-256 | the first line that raises ends the read with that error |
| WfsCatalog.ParseCatalogLines | source/aosWFS.py:247-256 | any catalog reads without error exactly when every line parses, and then gives one task per line, in line order, each that line's task |
| WfsCatalog.ReadCatalog | source/aosWFS.py:247-256 | the loop yields the tasks `ParseCatalog` gives, or its first error |
| WfsCatalog.LineWords | source/aosWFS.py:218-241 | a written line splits into the four formatted numbers and the two file names |
| WfsCatalog.LineRoundTrip | source/aosWFS.py:218-255 | parsing a written line gives back the file names and the coordinates in degrees |
| WfsCatalog.CatalogRoundTrip | source/aosWFS.py:207-256 | reading the catalog back gives one task per written star, in order, with the written coordinates |
| WfsCatalog.ResultRow | source/aosWFS.py:348 | the result row is zer4UpNm·1e-3 followed by 1.0 or 0.0 for the caustic flag |
| WfsCatalog.TableOfWrittenCatalog | source/aosWFS.py:245-267 | for a catalog written by `WriteCatalog`, the result table has one row per star, in order, each the solver's `ResultRow` |

## Left out

- The SVD itself (`np.linalg.svd`) and the reciprocal `1/Sa` are inputs: `svd` is a function from Anorm to (Ua, Sa⁻¹, VaT) whose shapes are required. Floating-point linear algebra is not modelled.
- File input and output are not modelled. The file contents are parameters: the `.esti` lines, the loaded sensitivity table, the `zFile_m1` matrix, covM86 and the catalog lines. This covers `open`, `np.loadtxt`, `np.savetxt`, FITS reads and writes, `glob`, `os.link`, `os.remove`, `os.chdir` and the atmosphere file written at aosWFS.py:150-159.
- The intrinsic-aberration file lookup and `intrinsicWFS` (aosWFS.py:54-62) are not modelled, because they are file names and a file read; only the base name rule (aosWFS.py:51-53) is.
- The cwfs `Instrument` and `Algorithm` objects, `center_of_mass` and the cwfs solver are external. The centroid and the `Solution` are parameters.
- Plotting (`preprocess` lines 166-205 and all of `checkZ4C`) and debug printing, including `print(self.Ause[21,32])`, are not modelled.
- `multiprocessing.Pool.map` is modelled as an ordered map over the tasks. Concurrency is not modelled.
- `getZ4CfromBase` (file links) is not modelled. `runAOS.py` and `aosM2.py` are not part of this model.
- Number parsing covers optional signs, digits and one decimal point. Underscores, exponents, `inf` and `nan` are rejected. `isdigit` covers ASCII digits only.
- EstimatorParams.MaskOf: masks are read as 0s and 1s. The model stops at any other character, whereas `np.fromstring(..., dtype=bool)` would read a run of the digits 2 to 9 (such as `2` or `23`) as one more true flag.
- Whitespace is the ASCII set (space, tab, line feed, vertical tab, form feed, carriage return). Python's `strip()` and `split()` also treat U+1C to U+1F, U+85 and the Unicode spaces and line separators as whitespace; lines holding those characters are not modelled.
- numpy 2-D column vectors (`reshape((-1,1))`) are modelled as flat vectors. This changes line 119 of aosEstimator.py. As written, yfinal is an (N, 1) column, so `Ainv.dot(self.yfinal[self.zn3IdxAx4])` is an (ncomp, 1) column. numpy's assignment through a single boolean mask into the 1-D `xhat` accepts only a 0-D or 1-D value, so by numpy's rules that line raises TypeError on every call. `EstimateSpec`, `EstimateSucceeds`, `EstimateScatters`, `EstimateResidual` and `AosEstimator.Estimate` describe the estimate with the flattened value the code evidently means, not a run of the code as written.
- Estimator.Broadcast: only the equal-length and length-1 cases of numpy broadcasting are modelled, because those are the only ones a column vector can meet here.
- WfsCatalog.CatalogCoords: field coordinates are integer micro-degrees, the resolution of `%9.6f`. Float rounding of `fieldXp ± 0.020` is not modelled.
- WfsCatalog.WriteCatalog: lines carry no trailing newline, and the fixed-width padding of `%9.6f` is modelled by `FormatField`.
- WfsGeometry.StampX: px0 and py0 are integers, as `fieldXY2Chip` returns pixel positions. `int()` of a float px0 is not modelled.
- Sensitivity.BuildModel: normalize_A true is modelled as an error, because `dofUnitMat` is then unassigned (aosEstimator.py:92-96) and Python raises `UnboundLocalError`.

Observations recorded in the model rather than corrected:
- **The residual step rejects masked Zernike terms.** `yresi += Anorm·(−xhat[compIdx])` at aosEstimator.py:121 broadcasts only when every `zn3Idx` entry is true, because the fit has 4·count(zn3Idx) terms while yfinal has 4·len(zn3Idx) (`EstimateSucceeds`).
- **The repeated mask's order.** `np.repeat(zn3Idx, 4)` masks row r of A by `zn3Idx[r div 4]`, but A's rows are ordered sensor-major (`CornerRows`). The two agree only when the mask is uniform.
- **The fit is a column.** By numpy's rules the assignment `xhat[compIdx] = Ainv.dot(yfinal[zn3IdxAx4])` at aosEstimator.py:119 raises TypeError, because the value is 2-D; the model flattens it (see Left out).
- **intrinsic4c is never assigned.** aosEstimator.py:117 reads `wfs.intrinsic4c`, but aosWFS.py sets only `intrinsicWFS` (lines 55-62). The attribute must be supplied from outside these files, or line 117 raises AttributeError. The model takes the vector as the `intrinsic` parameter of `EstimateSpec` and `AosEstimator.Estimate`.
- **nSingularInf == 1 truncates nothing**, because of the `> 1` guard (`Truncate`).
- **icomp and izn3 are option-line numbers.** The code uses `icomp` and `izn3` as the number of the option line that holds the mask, not as counts checked after loading. The model follows the code.

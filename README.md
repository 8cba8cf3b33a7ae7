# Time tool model

A Dafny model of the LCLS time tool: the per-shot feature extraction that
measures the relative arrival time of an x-ray pulse and an optical laser
pulse from the edge they leave in a camera image.

The model covers the following parts.

- **The engine in `service/`.**
  - `Fex` projects three regions of a 16-bit frame into traces:
    signal, sideband and reference.
  - `Sideband` removes the common-mode baseline.
  - `Spectrum` learns the reference on "bykik" shots and normalises
    signal shots by it.
  - A finite-impulse-response filter runs next.
  - A peak finder keeps at most eight peaks, sorted by amplitude.
  - `Fit` and `ParabFit` refine the best peak into an edge position,
    an amplitude and a full width at half maximum.
  - `RatioFit`, `LineFit` and `RefCorr` are the moment-sum fits behind
    the reference ratio correction.
  - `ConfigCache`, `FrameCache` and `Config` are the caches and the
    key/value configuration file.
- **The DAQ appliances.**
  - The EVR event-code FIFO is recorded in 32 buckets and encoded past a
    datagram's payload for the worker threads: `EvrFifo`, from
    app/TimeToolA.cc, app/TimeToolB.cc and app/TimeToolC.cc.
  - `INSERT_CODE` builds the event-code request list.
  - `RefStore` holds the reference map shared between workers, with
    variant C's event type and lockstep vectors.
  - `FrameTrim` compacts a datagram in place to drop the Opal camera
    frames (`Camera::FrameV1` records). Other records, the Vimba frames
    among them, are kept.
    The copies in app/TimeToolA.cc and event/TimeToolA.cc are identical;
    the rows below cite the first.
  - `EventApp` models the event builder of event/TimeToolA.cc: it decides
    from the records it finds whether to analyze the shot and trim it.
  - `SimApp` models the simulator's test pattern.
- **The Python prototype** (`PyTimeTool`, pyana/timetool.py):
  - the time-stamped reference table;
  - the event-code classification;
  - the running dark and reference averages;
  - the pure steps of the edge search.

How the model is built:

- Every `double` is a Dafny `real` with exact arithmetic.
- `uint32` sums and counters wrap explicitly modulo 2^32.
- The source's classes are Dafny classes whose methods are proved against
  specification functions.
- The properties the source promises are lemmas about those functions.
- In `Fex`, the state carried from shot to shot is a `Memory` value.
  `analyze` is a relation between the memory before, the memory after and
  the reported results.

`## Findings` lists four places where the source evidently does not do
what it intends. For each, the model states the code as written and the
corrected behaviour beside it. The operations (`Fit`, `Fex`, `PyTimeTool`,
`SimApp`) follow the code as written; the corrected members state what
was evidently meant, and lemmas show the inputs where the two differ.

## Model

| member | source | states |
|---|---|---|
| Averaging.BlendSeq | service/Sideband.cc:28-33 | element k of the updated trace is (1 - f) * avg[k] + f * x[k], the same length as avg |
| Averaging.BlendGap | service/Sideband.cc:29-32 | one rolling-average update shrinks the distance to the sample by the factor 1 - f |
| Averaging.RepeatGap | service/Sideband.cc:29-32 | after n updates with a constant sample the distance to it is (1 - f)^n times the initial one (convergence) |
| Averaging.BlendBetween | service/Sideband.cc:29-32 | for 0 <= f <= 1 the updated value lies between the old average and the sample |
| Averaging.BlendFixed | service/Sideband.cc:29-32 | an average equal to the sample is left unchanged by the update |
| Projection.FirstRow | service/Fex.cc:26-27 | the value copied from row top is that pixel, i.e. the one-row column sum |
| Projection.ColumnSumBounds | service/Fex.cc:31-37 | a column sum over k rows of 16-bit pixels lies in [0, 65535 k] |
| Projection.RowSumBounds | service/Fex.cc:53-54 | a row sum over k 16-bit pixels lies in [0, 65535 k] |
| Projection.ColumnSumFits | service/Fex.cc:31-37 | over at most 65537 rows the uint32 accumulation does not wrap: the stored value is the exact column sum |
| Projection.RowSumFits | service/Fex.cc:48-55 | over at most 65537 columns the uint32 accumulation does not wrap: the stored value is the exact row sum |
| Projection.XTraceIs | service/Fex.cc:12-38 | a buffer that holds the column sums on [lft, rgt], zeros below lft and between rgt and width, and its old words beyond, is exactly the trace project_spectrumX leaves |
| Projection.XTrace | service/Fex.cc:12-38 | the trace project_spectrumX leaves, as long as the buffer: column sums modulo 2^32 on [lft, rgt], zeros elsewhere below the width, old words beyond (ProjectX and XTraceIs state it) |
| Projection.ProjectX | service/Fex.cc:12-38 | sig[i] is the column sum over rows top..bot modulo 2^32 for lft <= i <= rgt (row top alone when bot < top), 0 for i < lft and for rgt < i < width, and unchanged beyond the width |
| Projection.CopyFirstRow | service/Fex.cc:23-29 | the three leading loops zero sig below lft, copy row top into [lft, rgt], zero (rgt, width) and leave the rest alone |
| Projection.AddRow | service/Fex.cc:31-37 | one pass of the row loop adds row j to columns lft..rgt modulo 2^32 and writes nothing else |
| Projection.ProjectY | service/Fex.cc:40-56 | for top <= i <= bot, sig[i] is the sum of row i over columns lft..rgt modulo 2^32; every other entry keeps its old value |
| Projection.YTrace | service/Fex.cc:40-56 | the trace project_spectrumY leaves, as long as the buffer: row sums modulo 2^32 on [top, bot] and old words elsewhere (ProjectY states it) |
| Sideband.DevSumStep | service/Sideband.cc:40-45 | one more group pixel adds wf[k] - avg[k] to the group's deviation sum |
| Sideband.Stride2SumShift | service/Sideband.cc:53-61 | moving every pixel of a group by q raises the group's sum by count * q |
| Sideband.DevSumSplit | service/Sideband.cc:40-45 | a group's deviation sum is the group sum of the shot minus the group sum of the average |
| Sideband.GroupTotalKept | service/Sideband.cc:37-61 | over each half/parity group the corrected trace sums to exactly the raw shot's sum (the common-mode correction keeps the group totals) |
| Sideband.CorrectedGroupSum | service/Sideband.cc:47-61 | over a group the corrected trace sums to the average's group sum plus the group's total deviation |
| Sideband.GroupCorrected | service/Sideband.cc:53-61 | every pixel start + 2t of a group is written as avg + that group's shift |
| Sideband.GroupOf | service/Sideband.cc:54-60 | pixel start + 2t belongs to the group that starts at start (left/right by half, even/odd by parity) |
| Sideband.ShiftedAt | service/Sideband.cc:54-60 | iteration t of the output loop writes pixels 2t, 2t+1, cols/2+2t, cols/2+2t+1 with the left-even, left-odd, right-even and right-odd shifts |
| Sideband.DevSumZero | service/Sideband.cc:37-45 | a shot equal to its average has zero deviation in every group |
| Sideband.CorrectedOfAverage | service/Sideband.cc:23-61 | when the average equals the shot (the first call) all four shifts are 0 and the returned trace is the shot |
| Sideband.VisitRoundTrip | service/Sideband.cc:39-45 | for cols = 4n every visit j of the paired loops lands on an index below cols from which VisitOf recovers j |
| Sideband.VisitOfRoundTrip | service/Sideband.cc:39-45 | for cols = 4n every index below cols is reached by the visit VisitOf names |
| Sideband.VisitsExactlyOnce | service/Sideband.cc:39-60 | when cols % 4 == 0 the paired k/m loops make exactly cols visits and touch every index of [0, cols) exactly once |
| Sideband.VisitsMismatch | service/Sideband.cc:39-60 | when cols % 4 != 0 the number of visits differs from cols, and for cols % 4 == 2 the last visit is index cols, past the buffers |
| Sideband.GroupSums | service/Sideband.cc:37-45 | the paired summation loop returns the four group sums of wf - avg (left even/odd, right even/odd) |
| Sideband.ApplyShifts | service/Sideband.cc:53-61 | the paired output loop writes the average moved by the shift of each pixel's group |
| Sideband.FirstOutput | service/Sideband.cc:23-61 | before any average exists the returned trace equals the input |
| Sideband.Output | service/Sideband.cc:20-63 | the trace process returns has the input's length; it is the input on the first call (FirstOutput) and afterwards the new average moved by each pixel's group shift (GroupTotalKept, CorrectedOfAverage) |
| Sideband.Sideband.constructor | service/Sideband.cc:5-12 | f1 is 0.05, no average yet, buffers of cols values |
| Sideband.Sideband.SetConvergence | service/Sideband.hh:13 | only f1 changes, to v |
| Sideband.Sideband.Process | service/Sideband.cc:20-63 | the first call copies the input into the average, later calls blend it with weight f1; each q is its group's deviation sum divided by cols/4; the returned trace is the average plus its group's shift, the input itself on the first call; the state moves as Learn says |
| Sideband.Sideband.UpdateAverage | service/Sideband.cc:22-33 | sets init; avg becomes the input on the first call and the f1-blend of old avg and input afterwards |
| Sideband.Sideband.ComputeShifts | service/Sideband.cc:37-52 | the four q fields become the mean deviations of their groups |
| Sideband.Sideband.WriteCorrected | service/Sideband.cc:53-61 | wf becomes the corrected trace: average plus group shift, pixel by pixel |
| Spectrum.Subtract | service/Spectrum.cc:30-31 | the subtracted trace has the input's length and holds wf[k] - sb[k] at every k |
| Spectrum.Normalized | service/Spectrum.cc:65-78 | the normalised trace has the input's length: v / ref - 1 where v = wf - sb passes the cut, 0 elsewhere (NormalizedRecovers undoes it) |
| Spectrum.Scaled | service/Spectrum.cc:99-104 | every pixel of the ratio-fit normalisation is v / (ref * (p0 + p1 (k/cols - 0.5))) - 1, with the cut playing no part |
| Spectrum.Samples | service/Spectrum.cc:50-51 | the ratio fit sees one weighable sample per pixel: old reference against new trace, noise 25 |
| Spectrum.NormalizedRecovers | service/Spectrum.cc:68-76 | normalisation is undone by the reference: a passing sample is (out + 1) * ref, a failing one is written as 0 |
| Spectrum.NormalizedOfReference | service/Spectrum.cc:65-78 | a shot equal to the reference (non-negative cut) normalises to all zeros |
| Spectrum.ScaledRecovers | service/Spectrum.cc:99-104 | the scaled normalisation is undone by the reference times the fitted ratio at every pixel |
| Spectrum.ScaledUnit | service/Spectrum.cc:65-106 | with p0 = 1 and p1 = 0 the scaled form agrees with the plain one on every passing pixel |
| Spectrum.FitRecoversRatio | service/Spectrum.cc:46-54 | a reference shot equal to the old reference times a + b x is fitted exactly: the ratio fit finds p0 = a and p1 = b |
| Spectrum.LearnRef | service/Spectrum.cc:25-63 | the reference keeps the trace length |
| Spectrum.LearnRefFixed | service/Spectrum.cc:36-61 | a learned reference is a fixed point: a passing shot equal to it leaves it unchanged, and the ratio fit then reports p0 = 1, p1 = 0 |
| Spectrum.Spectrum.constructor | service/Spectrum.cc:8-17 | reference all ones, f1 = 0.25, not initialised, ratio fit off |
| Spectrum.Spectrum.ProcessRef | service/Spectrum.cc:25-63 | wf holds wf - sb; without a passing sample the reference and init are untouched; the first passing call copies the trace and sets init; later ones blend with f1, fitting the ratio first when it is on; the state moves as LearnRef says |
| Spectrum.Spectrum.LoadTrace | service/Spectrum.cc:27-32 | wf becomes the subtracted trace, and the result is true iff some sample exceeds the cut |
| Spectrum.Spectrum.CopyRef | service/Spectrum.cc:36-40 | the reference becomes the subtracted trace |
| Spectrum.Spectrum.BlendRef | service/Spectrum.cc:56-61 | ref[k] becomes (1 - f1) ref[k] + f1 wf[k] for every k |
| Spectrum.Spectrum.FitAndBlendRef | service/Spectrum.cc:41-55 | the fit is reset and fed every pixel with the reference value from before the shot, finalized once, and the reference ends blended |
| Spectrum.Spectrum.FitAndBlendAt | service/Spectrum.cc:50-53 | one pixel: accumulated with the old ref[k], then ref[k] alone is blended |
| Spectrum.Spectrum.ProcessSig | service/Spectrum.cc:65-78 | wf[k] = v / ref[k] - 1 where v = wf[k] - sb[k] passes the cut and 0 elsewhere; the trace is returned iff some sample passed; the reference is not written |
| Spectrum.Spectrum.ProcessSigWith | service/Spectrum.cc:80-93 | the same rule with a caller-supplied reference, which is only read |
| Spectrum.Spectrum.Normalize | service/Spectrum.cc:67-77 | the shared loop writes the normalised trace and reports whether any sample passed |
| Spectrum.Spectrum.ProcessSigScaled | service/Spectrum.cc:95-106 | every pixel is divided by ref[k] (p0 + p1 (k/cols - 0.5)); the cut only decides whether the trace is returned |
| Spectrum.Spectrum.SaveRef | service/Spectrum.cc:108-123 | the values written are the reference exactly when one was learned or loaded, and nothing otherwise |
| Spectrum.Spectrum.LoadRef | service/Spectrum.cc:125-139 | when the file opens, its values become the reference and init is set; otherwise nothing changes |
| Spectrum.Spectrum.SetConvergence | service/Spectrum.cc:141 | only f1 changes |
| Spectrum.Spectrum.FitRatio | service/Spectrum.cc:143 | only the ratio-fit switch changes |
| RatioFit.NormalEquations | service/RatioFit.cc:44-47 | with d != 0 the closed-form p0, p1 solve the weighted normal equations vv p0 + xvv p1 = vw and xvv p0 + xxvv p1 = xvw |
| RatioFit.NormalEquationsUnique | service/RatioFit.cc:44-47 | any solution of those normal equations is the closed-form one when d != 0 |
| RatioFit.AddChiSq | service/RatioFit.cc:25-49 | one weighted accum raises the chi-square expression by r e^2, with e the sample's residual |
| RatioFit.ChiSqFromMoments | service/RatioFit.cc:25-49 | the chi-square finalize computes from the moment sums equals the weighted sum of squared residuals over every accumulated sample |
| RatioFit.ProportionalMoments | service/RatioFit.cc:25-35 | when every sample has w = v (a + b x), the accumulated moments satisfy the normal equations at (a, b) |
| RatioFit.ExactRecovery | service/RatioFit.cc:23-49 | exactly proportional data w = v (a + b x) with d != 0 gives p0 = a, p1 = b and chi-square 0 |
| RatioFit.ZeroResiduals | service/RatioFit.cc:48-49 | data exactly on the model has zero weighted residual sum |
| RatioFit.PlainSums | service/RatioFit.cc:36-39 | without p1, a trace that is a times the reference accumulates ww = a vv |
| RatioFit.PlainRatioRecovery | service/RatioFit.cc:36-55 | without p1, a trace that is exactly a times the reference gives p0 = ww / vv = a |
| RatioFit.RatioFit.constructor | service/RatioFit.cc:5-7 | the p1 term starts switched off |
| RatioFit.RatioFit.Reset | service/RatioFit.cc:13-21 | the six sums become 0 and nothing else changes |
| RatioFit.RatioFit.Accum | service/RatioFit.cc:23-40 | the sums grow by one sample's contribution: r v^2, r v w, r x v^2, r x v w, r x^2 v^2, r w^2 with p1; only v and w otherwise |
| RatioFit.RatioFit.Finalize | service/RatioFit.cc:42-56 | with p1 and d != 0, p0 and p1 are the closed-form solution and chsq the chi-square expression; without p1, p0 = ww / vv, p1 = 0 and chsq = 0; the sums are kept |
| RatioFit.Finalized | service/RatioFit.cc:42-56 | the coefficients finalize leaves: with p1 the closed-form solution, without it ww / vv and 0; a zero denominator keeps the old p0 and p1 (NormalEquations and ExactRecovery state the solution) |
| RatioFit.RatioFit.SetFitP1 | service/RatioFit.cc:58-61 | only the p1 switch changes |
| LineFit.NormalEquations | service/LineFit.cc:38-48 | with spread the solved line satisfies the averaged normal equations mean y = p0 + p1 mean x and mean xy = p0 mean x + p1 mean x^2 |
| LineFit.NormalEquationsUnique | service/LineFit.cc:44-47 | with spread, any line satisfying those equations is the one finalize writes |
| LineFit.OnLine | service/LineFit.cc:28-36 | for points on y = a + b x the exponential averages satisfy mean y = a W + b mean x and mean xy = a mean x + b mean x^2, with W the averaged weight of the points |
| LineFit.StepOnLine | service/LineFit.cc:28-36 | one accum of a point of the line keeps those relations, with the weight averaged towards 1 |
| LineFit.BlendLinear | service/LineFit.cc:30-35 | the accum update is linear in the averages it blends |
| LineFit.ThroughOrigin | service/LineFit.cc:28-48 | points on a line through the origin, with spread, are fitted exactly: p0 = 0, p1 = b |
| LineFit.NoSpread | service/LineFit.cc:40-43 | without spread (vv = v^2) finalize gives p0 = p1 = 0 |
| LineFit.LineFit.constructor | service/LineFit.cc:5-26 | f1 = 0.05 and all five averages, ww included, are 0 |
| LineFit.LineFit.SetConvergence | service/LineFit.cc:14-17 | only f1 changes |
| LineFit.LineFit.Reset | service/LineFit.cc:19-26 | the averages and ww become 0; f1 and the coefficients stay |
| LineFit.LineFit.Accum | service/LineFit.cc:28-36 | x, y, x^2 and x y are each moved a fraction f1 towards the new point; ww is not updated |
| LineFit.LineFit.Finalize | service/LineFit.cc:38-48 | the coefficients become the solved line: zero without spread, otherwise p1 = (vw - v w) / d and p0 = w - v p1 |
| ParabFit.CountSum | service/ParabFit.cc:18-22 | after n accums the count sum xx[0] is n |
| ParabFit.AddOnRows | service/ParabFit.cc:18-30 | accumulating a point of the parabola a + b x + c x^2 keeps the right-hand sums equal to the normal matrix times (a, b, c) |
| ParabFit.OnParabolaSums | service/ParabFit.cc:18-30 | points all on one parabola give sums with xy = M (a, b, c), M the matrix of power sums |
| ParabFit.CofactorRowA | service/ParabFit.cc:36-50 | the first cofactor row against the columns of the normal matrix gives det, 0, 0 |
| ParabFit.CofactorRowB | service/ParabFit.cc:36-50 | the second cofactor row against the columns gives 0, det, 0 |
| ParabFit.CofactorRowC | service/ParabFit.cc:36-50 | the third cofactor row against the columns gives 0, 0, det |
| ParabFit.SolveA | service/ParabFit.cc:55 | with xy = M k and det != 0, finalize's a is k's a |
| ParabFit.SolveB | service/ParabFit.cc:56 | with xy = M k and det != 0, finalize's b is k's b |
| ParabFit.SolveC | service/ParabFit.cc:57 | with xy = M k and det != 0, finalize's c is k's c |
| ParabFit.ExactParabola | service/ParabFit.cc:18-57 | points all on a + b x + c x^2 with a regular normal matrix are fitted exactly: finalize returns (a, b, c) |
| ParabFit.VertexIsMaximum | service/ParabFit.hh:14-15 | position() is where the slope vanishes, amplitude() is the parabola's value there, and when c < 0 no x gives a larger value |
| ParabFit.ParabFit.CurrentIsSums | service/ParabFit.hh:20 | the two arrays hold the power sums of the accumulated points |
| ParabFit.ParabFit.constructor | service/ParabFit.cc:10-14 | all eight sums start at zero, no points accumulated |
| ParabFit.ParabFit.Accum | service/ParabFit.cc:18-30 | the point joins the sums: xx[p] gains x^p for p = 0..4 and xy[p] gains y x^p for p = 0..2 |
| ParabFit.ParabFit.Finalize | service/ParabFit.cc:32-76 | a singular matrix leaves the fit invalid and the coefficients unchanged; otherwise the cofactor solution is stored and the fit is valid exactly when c < 0 |
| Fit.LeftWalkSpec | service/Fit.cc:17-23 | the left walk stops at or after the first sample below 80% of the peak, and every sample it passes is at or above that threshold |
| Fit.RightWalkSpec | service/Fit.cc:17-30 | the right walk stops at or before the first sample below the threshold, and every sample it passes is at or above it |
| Fit.HalfLeftSpec | service/Fit.cc:40-42 | the half-maximum extension to the left stops on a sample at or below half maximum, and every sample it steps over is above it |
| Fit.HalfRightSpec | service/Fit.cc:40-44 | the half-maximum extension to the right stops on a sample at or below half maximum, and every sample it steps over is above it |
| Fit.WalkBounds | service/Fit.cc:17-44 | for a good peak both half-maximum ends lie inside nwts <= l < ix < r < cols - 1 and bracket half maximum with their inner neighbours |
| Fit.HalfEnds | service/Fit.cc:40-44 | the pair of ends process interpolates between satisfies those bounds and brackets |
| Fit.Crossings | service/Fit.cc:46-48 | the interpolated crossings lie in [l, l + 1) and (r - 1, r], the straight line through the bracketing samples meets half maximum there, and the width, their distance, is positive |
| Fit.AsWrittenAsymmetric | service/Fit.cc:46-48 | on the symmetric peak [0, 4, 10, 4, 0] the width formula as written gives 25/12 where the interpolated width is 5/3 |
| Fit.Fwhm | service/Fit.cc:46-48 | the intended width: the distance between the two interpolated half-maximum crossings (stated by Crossings) |
| Fit.FwhmAsWritten | service/Fit.cc:46-48 | the width formula as written, interpolating the right crossing over q[r + 1] - q[r] |
| Fit.StoredWidth | service/Fit.cc:46-48 | the stored width is no finite double exactly when q[r + 1] == q[r], and otherwise the formula as written |
| Fit.AsWrittenAgainstInterpolated | service/Fit.cc:46-48 | the formula as written agrees with the interpolated width when the right end sits on half maximum, and is larger when the sample past the right end falls further |
| Fit.StaleEnds | service/Fit.cc:40-48 | on [0, 10, 0, 0] with the peak at 1 the half-maximum ends are 0 and 2 and q[3] == q[2], so no finite width is stored |
| Fit.Processed | service/Fit.cc:6-49 | the fit after process: an accepted parabola gives valid, its peak value and its vertex; a rejected one keeps flag, amplitude and position; the width is always the stored width |
| Fit.ClearedFlagIsAccepted | service/Fit.cc:32-38 | from a cleared flag, process leaves valid exactly when the parabola is accepted, and then the amplitude is the parabola's maximum |
| Fit.StaleValid | service/Fit.cc:32-48 | a good peak can have a singular normal matrix: process then keeps the valid flag, amplitude and position of the previous peak, and its width is not a finite double |
| Fit.FitParabola | service/Fit.cc:11-38 | the parabola is fitted to the peak and the two walks' points; it is accepted exactly when the matrix is regular and c < 0, and then gives the vertex's height and abscissa |
| Fit.HalfWidth | service/Fit.cc:40-48 | the width loop stores the formula as written between the half-maximum ends, with the right-hand interpolation over q[r + 1] - q[r], and no finite width when that difference is 0 |
| Fit.LeftStep | service/Fit.cc:19-23 | one step of the left walk: stop at nwts, stop after a sample below threshold, or continue |
| Fit.RightStep | service/Fit.cc:26-30 | one step of the right walk: stop at cols - 1, stop after a sample below threshold, or continue |
| Fit.WalkLeft | service/Fit.cc:18-23 | the left loop accumulates exactly the left walk's points and stops where the walk stops |
| Fit.WalkRight | service/Fit.cc:25-30 | the right loop accumulates exactly the right walk's points and stops where the walk stops |
| Fit.ExtendLeft | service/Fit.cc:41-42 | the loop ends at the half-maximum extension to the left |
| Fit.ExtendRight | service/Fit.cc:43-44 | the loop ends at the half-maximum extension to the right |
| Fit.Fit.constructor | service/Fit.hh:8-19 | three parameters, none initialised |
| Fit.Fit.Process | service/Fit.cc:6-49 | the fit moves as Processed: an accepted parabola replaces amplitude and position and sets the valid flag, a rejected one leaves all three as they were, and the width always becomes the one the formula as written gives |
| Fit.Fit.Refit | service/Fit.cc:6-38 | the intended use of process, with the flag cleared first: valid then holds exactly when this peak's parabola is accepted |
| RefCorr.Filling | service/RefCorr.cc:25-29 | within a period, after k < n calls from a fresh start the counter is k, each fit holds the averages of the k points fed to it, and the corrections are untouched |
| RefCorr.PeriodSolves | service/RefCorr.cc:25-39 | the n-th call of a period solves each fit over exactly the period's n points, those lines become the corrections, and counter and fits start afresh |
| RefCorr.RefCorr.constructor | service/RefCorr.cc:6-13 | period 10, counter 0, the one-to-one correction p0(x) = 1 and p1(x) = 0, both fits zeroed |
| RefCorr.RefCorr.SetPeriod | service/RefCorr.cc:19-23 | the period becomes the argument as an unsigned 32-bit value and the counter restarts at 0 |
| RefCorr.RefCorr.Accum | service/RefCorr.cc:25-40 | both fits take the new (input, output) coefficient pair and the counter advances; on reaching the period both fits are solved into the corrections and reset, otherwise the corrections keep their values |
| RefCorr.RefCorr.Solve0 | service/RefCorr.cc:31-34 | the p0 correction becomes the solved line of the p0 fit, which is then zeroed; the p1 correction is untouched |
| RefCorr.RefCorr.Solve1 | service/RefCorr.cc:35-38 | the p1 correction becomes the solved line of the p1 fit, which is then zeroed; the p0 correction is untouched |
| FexScan.FirFlat | service/Fex.cc:301-303 | on a stretch where the signal is constant c the filter output is c times the sum of the weights, so zero-sum edge weights give 0 there |
| FexScan.FirTrace | service/Fex.cc:298-305 | the filtered trace has the signal's length |
| FexScan.Filter | service/Fex.cc:294-305 | a fresh trace of the signal's length, 0 outside [nwts + spec_begin, spec_end] and the weighted sum of the last nwts signal samples inside |
| FexScan.FoundIsGood | service/Fex.cc:333-368 | every peak the finder records satisfies what the parabola fit relies on: a positive peak strictly inside the window with samples at or below half of it on both sides, and the same index in the low 16 bits |
| FexScan.FirstBelow | service/Fex.cc:339-345 | the insertion point: every earlier entry has amplitude at least the new one, the entry there (if any) has less |
| FexScan.InsertedAt | service/Fex.cc:339-345 | the inserted list is the entries before the insertion point, the new word, then the rest |
| FexScan.InsertedSorted | service/Fex.cc:339-345 | inserting at that point keeps a list sorted by non-increasing amplitude sorted |
| FexScan.InsertedContents | service/Fex.cc:339-345 | insertion adds exactly the new word to the list's multiset of entries |
| FexScan.InsertPeak | service/Fex.cc:330-346 | a full list whose last amplitude exceeds the new peak's is unchanged; otherwise a full list drops its last entry and the word goes before the first entry of lower amplitude |
| FexScan.FirstBelowIs | service/Fex.cc:339-343 | the first index whose amplitude is below the new one is the insertion point |
| FexScan.InsertKeeps | service/Fex.cc:330-346 | a list of at most eight recorded peaks sorted by amplitude stays one after a recorded peak is inserted |
| FexScan.FindPeaks | service/Fex.cc:309-354 | the loop leaves exactly Peaks, the passes of Step from sample x0 + 1 up to spec_end, and that list is a peak list: at most eight recorded peaks sorted by non-increasing amplitude |
| FexScan.Record | service/Fex.cc:329-346 | recording a word changes the list as Updated says |
| FexScan.Updated | service/Fex.cc:330-346 | the list after a recording pass is never empty, holds at most eight words and only indices of the trace |
| FexScan.Start | service/Fex.cc:311-318 | the running values before the loop start from the first filtered sample, not below 0, with no candidate and an empty list |
| FexScan.Step | service/Fex.cc:321-353 | one pass of the loop keeps the running values in range: a new candidate, a recording, a restart or nothing |
| FexScan.Run | service/Fex.cc:320-354 | the loop from sample i to spec_end keeps the running values in range |
| FexScan.Peaks | service/Fex.cc:309-354 | the list the finder leaves for the window (x0, spec_end) |
| FexScan.Pass | service/Fex.cc:321-353 | the loop body moves the running values exactly as Step |
| FexScan.StepScanning | service/Fex.cc:321-353 | one pass keeps the candidate at the running maximum inside the window, aright at half of it, and the list a peak list |
| FexScan.RecordScanning | service/Fex.cc:329-346 | the word a recording pass inserts is a found peak, so the list stays a peak list |
| FexScan.RunIsPeakList | service/Fex.cc:320-354 | the loop keeps its list a peak list |
| FexScan.PeaksArePeakList | service/Fex.cc:309-354 | the finder's list is a peak list: at most eight recorded peaks, sorted by non-increasing amplitude |
| FexScan.PeaksNonEmptyIff | service/Fex.cc:309-354 | the finder keeps some peak exactly when the window holds a positive sample p with samples below half of q[p] at some j < p (j >= x0) and e > p (e < spec_end) |
| FexScan.StepProgress | service/Fex.cc:321-353 | one pass keeps 0 <= aleft <= amax and the candidate invariants, and never loses ground towards a rise and fall |
| FexScan.RunKeepsList | service/Fex.cc:330-346 | once the list holds a peak it never becomes empty again |
| FexScan.RunReaches | service/Fex.cc:320-354 | from balanced running values with progress through a rise and fall, the loop ends with a non-empty list |
| FexScan.RiseAndFallHasList | service/Fex.cc:309-354 | a rise and fall in the window leaves a non-empty list |
| FexScan.ListHasRiseAndFall | service/Fex.cc:329-346 | a non-empty list shows a rise and fall: its first word's peak, the fall sample and a low sample before the peak |
| FexScan.IdleRun | service/Fex.cc:349-353 | running values restarted at 0 with no candidate are unchanged by samples at or below 0 |
| FexScan.SinglePeak | service/Fex.cc:309-354 | a window whose only positive sample is p, with p + 1 still inside, gives exactly one peak: the word (p + 1) * 65536 + p, index p and fall p + 1 |
| Fex.Sided | service/Fex.cc:255 | the sideband step changes only the sideband's memory: both spectra and the correlation are untouched |
| Fex.ReportedPeak | service/Fex.cc:309-368 | status() holds exactly when the filtered window holds a positive sample with a sample below half of it on each side; the raw position is then the index of the highest recorded peak, strictly inside the window and no lower than any other peak, and at most eight peaks are counted |
| Fex.FlatHasNoPeak | service/Fex.cc:309-354 | an all-zero filtered trace gives an empty peak list |
| Fex.AssignableIsReportable | service/Fex.cc:359-381 | the finder's peak list of a runnable window gives the fits good peaks to process |
| Fex.Refitted | service/Fex.cc:364-381 | the fits after the assignment: the first processes the highest peak and, when it then reads valid and a second peak exists, the second processes that one |
| Fex.Report | service/Fex.cc:251-383 | from a reset: the number of peaks; nothing else but next_amplitude -1 without a peak; the highest peak's index as raw position; and, when the first fit reads valid, its position, calibrated time, width and amplitude, and the second fit's amplitude or -1 |
| Fex.Refined | service/Fex.cc:364-375 | the intended refinement of one recorded peak: vertex, parabola peak and interpolated width, or nothing when the parabola is rejected |
| Fex.ProcessedIsRefinedWhenCleared | service/Fex.cc:368-375 | a fit whose flag was clear reads valid exactly when the intended refinement exists, with the same position and amplitude |
| Fex.StaleLead | service/Fex.cc:368-375 | a fit left valid by an earlier shot, on a peak whose parabola is rejected, makes the shot report the earlier shot's position, calibrated time and amplitude |
| Fex.Next | service/Fex.cc:251-288 | the memory after one shot keeps every trace at the trace length |
| Fex.FirOfZeros | service/Fex.cc:298-305 | an all-zero normalised signal filters to an all-zero trace |
| Fex.ReferenceShotHasNoEdge | service/Fex.cc:246-354 | a shot identical to the learned signal reference (no reference arm, non-negative cut) normalises to zeros, finds no peak, and reports status() false |
| Fex.OnlyKicksTeachSignal | service/Fex.cc:253-288 | a dark shot changes no memory; the signal reference changes only on bykik shots; the reference arm only on bykik shots or with use_ref 1 or 2; the correlation only on bykik shots with use_ref 2 |
| Fex.Fex.Init | service/Fex.cc:58-75 | bykik event code 162, no-laser code 0, zero calibration, no reference arm, zero cuts, no weights; sideband and spectra start uninitialised with unit references |
| Fex.Fex.Configured | service/Fex.cc:99-201 | the settings are those the file gave; the sb_convergence and sig_convergence lines set the sideband's and the signal spectrum's f1 (0.05 and 0.25 otherwise), ref_update_period the correlation period (10 otherwise) with its counter at 0; both spectra fit the ratio exactly when use_ref is 2 and fit p1 exactly when ref_fit_p1 is set; the stored reference, when there is one, becomes the signal reference and marks it learned |
| Fex.Configuration | service/Fex.cc:147-195 | the memory configure leaves: the convergence and period lines, the ratio-fit switches of both spectra and the stored signal reference |
| Fex.Fex.Configure | service/Fex.cc:147-195 | the memory becomes Configuration of the tuning lines and the stored reference |
| Fex.Fex.Adjust | service/Fex.cc:147-154 | the two convergences and the period are set as the tuning lines say, and nothing else changes |
| Fex.Fex.Tune | service/Fex.cc:147-150 | sb_convergence sets the sideband's f1 and sig_convergence the signal spectrum's; without a line the value is kept |
| Fex.Fex.Period | service/Fex.cc:153-154 | ref_update_period sets the correlation period modulo 2^32 and restarts its counter; without the line nothing changes |
| Fex.Fex.Equip | service/Fex.cc:186-195 | the ratio-fit switches of both spectra are set, then the stored reference is loaded |
| Fex.Fex.Arm | service/Fex.cc:186-187 | both spectra fit the ratio exactly when use_ref is 2, and both ratio fits fit p1 exactly when ref_fit_p1 is set |
| Fex.Fex.Load | service/Fex.cc:191-195 | a stored reference becomes the signal reference and marks it learned; without one nothing changes |
| Fex.CenterIsMiddle | service/Fex.cc:189 | for an even trace length _flt_center_ps is the calibrated time of the middle pixel |
| Fex.Fex.FilteredPosAdj | service/Fex.hh:37 | the calibrated position less the centre configure computed |
| Fex.Fex.Reset | service/Fex.cc:203-207 | no fits and every result 0 |
| Fex.Fex.Analyze | service/Fex.cc:246-387 | analyze of three traces relates the memory and fits before and after and the results as Outcome: dark, bykik or below-cut shots report nothing and leave the fits alone, other shots refit and report from the filtered normalised signal and its peak list |
| Fex.Fex.AnalyzeFrame | service/Fex.cc:209-244 | the projections of the frame regions fill the buffers (the reference only with use_ref), then analyze of the buffers satisfies Outcome |
| Fex.Fex.ProjectAll | service/Fex.cc:212-241 | the three buffers become the frame's projections, along x or y as configured, and the memory is unchanged |
| Fex.Project | service/Fex.cc:212-241 | one buffer becomes the projection of its region |
| Fex.Fex.Shot | service/Fex.cc:251-387 | analyze of a shot neither dark nor kicked satisfies Outcome |
| Fex.Fex.Rest | service/Fex.cc:270-387 | after the sideband step, the normalisation, filter, peak search, fits and result assignment relate memory, fits and results as Followed |
| Fex.Fex.Extract | service/Fex.cc:292-383 | the filtered trace is the filter of the normalised signal, the peak list is exactly the finder's Peaks of it, the fits move as Refitted and the results are Report of them |
| Fex.Fex.CorrectSideband | service/Fex.cc:255 | the sideband learns the shot's sideband trace and returns its corrected output; nothing else changes |
| Fex.Fex.LearnSignal | service/Fex.cc:261-266 | process_ref teaches the signal spectrum the sideband-subtracted signal; nothing else changes |
| Fex.Fex.LearnReference | service/Fex.cc:260-282 | process_ref teaches the reference arm the sideband-subtracted reference and returns its reference trace; nothing else changes |
| Fex.Fex.Correlate | service/Fex.cc:262 | the correlation accumulates the two ratio fits' coefficients; nothing else changes |
| Fex.Fex.Kicked | service/Fex.cc:257-268 | the bykik branch changes the memory as Learned with bykik |
| Fex.Fex.DivideScaled | service/Fex.cc:276-278 | the signal is divided by the reference scaled with the corrected ratio coefficients; a result exists exactly when some sample passes the cut |
| Fex.Fex.DivideBy | service/Fex.cc:284-287 | the signal is divided by the given reference trace; a result exists exactly when some sample passes the cut |
| Fex.Fex.Normalise | service/Fex.cc:269-290 | the normalisation branch changes the memory as Learned without bykik and returns the normalised signal of SignalFrom |
| Fex.Fex.Refinements | service/Fex.cc:364-381 | the persisting fits move as Refitted: the first processes the highest peak and, when it then reads valid and there is a second peak, the second processes that one |
| Fex.Fex.Conclude | service/Fex.cc:359-383 | the fits move as Refitted and the results become Report of them; the memory is untouched |
| Fex.Fex.Assign | service/Fex.cc:359-383 | the results are Report of the peak list and the fits as process left them |
| ConfigCache.Instance | service/ConfigCache.cc:57-82 | a cache is made exactly for TimeToolConfig versions 1, 2 and 3, of that version; any other type or version gives none |
| ConfigCache.SumAppend | service/ConfigCache.cc:43-44 | the running sum of two stretches one after the other is the sum of their sums |
| ConfigCache.SumFlatten | service/ConfigCache.cc:41-44 | summing the two-dimensional region in storage order equals summing its row sums |
| ConfigCache.FullIntegral | service/ConfigCache.cc:37-53 | for version 3 with projections and use_full_roi the integral is the total of the full region's row sums |
| ConfigCache.Accumulate | service/ConfigCache.cc:20-48 | the loop adds up every entry of the array |
| ConfigCache.Cache.constructor | service/ConfigCache.cc:84-89 | the cache copies the configuration and holds no data |
| ConfigCache.Cache.Accept | service/ConfigCache.cc:102-113 | data() keeps the payload and answers true exactly when its type id and version are those of the configuration's data type; otherwise the data is cleared |
| ConfigCache.Cache.SignalIntegral | service/ConfigCache.cc:15-53 | 0 without projections; the sum of the full region for version 3 with use_full_roi; the sum of the projected signal otherwise |
| FrameCache.Instance | service/FrameCache.cc:9-31 | an Alvium configuration of version 1 gives a Vimba cache, an Opal1k configuration of any version an Opal cache, and nothing else gives a cache |
| FrameCache.Cache.constructor | service/FrameCache.cc:33-46 | the cache remembers its source and holds no frame |
| FrameCache.Cache.SetFrame | service/FrameCache.cc:63-71 | a payload of the accepted type id and version is stored; any other payload leaves the stored frame as it was |
| FrameCache.Cache.ClearFrame | service/FrameCache.cc:73-77 | no frame is stored afterwards, so the cache is empty |
| FrameCache.Cache.Empty | service/FrameCache.cc:79-83 | empty exactly when no frame is stored, and an empty cache reports offset 0 and a 0x0 frame |
| FrameCache.Cache.Offset | service/FrameCache.cc:85-89 | the stored Opal frame's offset, 0 with none stored, and always 0 for a Vimba cache |
| FrameCache.Cache.Data | service/FrameCache.cc:54-61 | the stored frame's pixels, or a 0x0 array with none stored |
| Config.RunLength | service/Config.cc:93 | the run at the start of a line is free of space, tab and newline and ends at one of them or at the end |
| Config.Tokens | service/Config.cc:93-97 | every token strtok_r returns is non-empty and free of the delimiters |
| Config.RunOfToken | service/Config.cc:93-97 | a token followed by a delimiter or the end is one whole run |
| Config.TokensOfJoin | service/Config.cc:93-97 | tokens written with single spaces between them split back into the same tokens |
| Config.FirstMatch | service/Config.cc:90-101 | the line taken is a non-comment line whose first token is the name, and no earlier line is one |
| Config.LaterLinesIgnored | service/Config.cc:90-101 | lines after the first match never change the line taken |
| Config.CommentSkipped | service/Config.cc:91-92 | a line starting with '#' is never taken, whatever follows |
| Config.ToBool | service/Config.cc:50-52 | true exactly when the argument starts with 't' or 'T' |
| Config.NextToken | service/Config.cc:58 | one strtok_r call returns the next token of the rest of the line and moves past it, or nothing when only delimiters remain |
| Config.SkipDelims | service/Config.cc:93 | skipping the leading delimiters loses no token |
| Config.RunEnd | service/Config.cc:93 | the run from a non-delimiter ends at the next delimiter or the end of the line |
| Config.TokenAt | service/Config.cc:58 | a maximal run is the next token, and the remaining tokens follow it |
| Config.RemainingTokens | service/Config.cc:54-62 | ResultSeq converts every remaining token of the line, in order |
| Config.TokensShrink | service/Config.cc:58 | each successful strtok_r step moves forward in the line |
| Config.TokensLength | service/Config.cc:58 | starting later in a line never gives more tokens |
| Config.ConvertedStep | service/Config.cc:58-59 | one ResultSeq step appends the converted token and leaves the rest to follow |
| Config.ConvertedAppend | service/Config.cc:58-59 | converting two token lists one after the other is converting their concatenation |
| Config.File.constructor | service/Config.cc:66-70 | the file holds its lines, or nothing when it could not be opened |
| Config.File.Locate | service/Config.cc:84-101 | the scan stops at the first matching line and leaves the position just after the name, from which the remaining tokens are the line's tokens after the first |
| Config.File.Scalar | service/Config.cc:76-104 | the default without a file or without a match; otherwise the converted second token of the first matching line |
| Config.File.Vector | service/Config.cc:106-133 | the default without a file or without a match; otherwise every token after the name on the first matching line, converted in order |
| Config.MatchIsFirst | service/Config.cc:90-101 | a matching line with no earlier match is the line taken |
| Config.NoMatch | service/Config.cc:90-101 | with no matching line nothing is taken |
| PyTimeTool.IsBefore | pyana/timetool.py:65-72 | a is before b exactly when its seconds are smaller, or equal with smaller nanoseconds |
| PyTimeTool.IsBeforeOrder | pyana/timetool.py:65-72 | is_before is irreflexive, asymmetric, transitive and total on distinct times |
| PyTimeTool.FirstLater | pyana/timetool.py:75-78 | the scan from entry i stops at the first entry later than the time, or at the last entry, and passes no later entry |
| PyTimeTool.LookupIndex | pyana/timetool.py:74-78 | lookup answers with an entry from the second on (when there are two), passing no entry later than the time, and that entry is later than the time unless it is the last |
| PyTimeTool.Lookup | pyana/timetool.py:74-78 | the loop returns the spectrum of that entry |
| PyTimeTool.SortedLookup | pyana/timetool.py:74-78 | in a time-ordered table the answer is the earliest entry after the first that is later than the time: entries from it on are later, those before it are not |
| PyTimeTool.ScanCodes | pyana/timetool.py:237-255 | the shot is kicked exactly when code 162 is present, and the laser flag is the one the code scan leaves |
| PyTimeTool.NoLaserCode | pyana/timetool.py:238-255 | without a code equal to the laser code or its negation the flag is its start value, on exactly when the laser code is not positive |
| PyTimeTool.LastLaserCodeWins | pyana/timetool.py:252-255 | the last code equal to the laser code or its negation decides: on exactly when it is the laser code and that code is not 0 |
| PyTimeTool.Minus | pyana/timetool.py:290-295 | element-wise difference |
| PyTimeTool.Constant | pyana/timetool.py:187-195 | a spectrum of n equal values |
| PyTimeTool.Averaged | pyana/timetool.py:272-276 | the first sample is copied, later ones blended as (1 - c) avg + c x |
| PyTimeTool.LearnedAsWritten | pyana/timetool.py:301-308 | a reference shot as written never clears the sideband reference's "nothing learned" flag |
| PyTimeTool.Learned | pyana/timetool.py:301-308 | a reference shot averages the signal reference and, with the sideband in use, the sideband reference in the same way; without it the sideband reference is untouched |
| PyTimeTool.LearnedKeepsSideband | pyana/timetool.py:301-320 | with that update a learned signal reference always comes with a learned sideband reference, which stays positive while the sideband projections are, so the division at line 320 is defined |
| PyTimeTool.SidebandNeverCopied | pyana/timetool.py:301-320 | as written, after one reference shot from scratch the signal reference is learned while the sideband reference is still zero |
| PyTimeTool.Referenced | pyana/timetool.py:297-313 | with a reference file its spectrum becomes the signal reference and the shot proceeds; otherwise a kicked shot is learned as written and stops the event, and an unkicked shot stops the event exactly when nothing was learned yet; the sideband flag never changes, so with the sideband in use a learned signal reference leaves the references not ready |
| PyTimeTool.Analyzer.constructor | pyana/timetool.py:93-195 | the dark starts at 32 counts per signal row, both references at zero, everything unlearned |
| PyTimeTool.Analyzer.Event | pyana/timetool.py:230-315 | without the laser nothing changes; with it the dark average takes the dark projection, the signal and sideband have it subtracted, and the reference step as written decides the outcome and the new references |
| PyTimeTool.Normalised | pyana/timetool.py:315-320 | the ratio minus one: multiplying each entry plus one by the reference gives the signal back |
| PyTimeTool.Smoothed | pyana/timetool.py:318-321 | the centred slice of the full convolution has the trace's length |
| PyTimeTool.Filtered | pyana/timetool.py:324 | the valid convolution has |s| - |w| + 1 entries |
| PyTimeTool.FilteredWindow | pyana/timetool.py:324 | entry i of the valid convolution is the filter laid reversed over s[i .. i + |w|), so filtered index i stands for trace index i + |w| - 1 |
| PyTimeTool.PrefixInside | pyana/timetool.py:324 | inside the valid range every partial sum of the convolution uses existing samples only |
| PyTimeTool.ArgMax | pyana/timetool.py:326 | the first index of the largest entry |
| PyTimeTool.FitRange | pyana/timetool.py:334-343 | the widest run around the maximum whose samples stay at or above 80% of it |
| PyTimeTool.DTransWindow | pyana/timetool.py:357-367 | wherever the assignment succeeds on a trace that covers the window's right end, the three cases are one window of ns samples starting ns - 50 before the raw position, zero where the trace has no sample |
| PyTimeTool.DTrans | pyana/timetool.py:357-367 | the window around the raw position; no result exactly when the slice assignment raises ValueError, that is when the slices of the two sides differ in length and the right one is not a single broadcast sample |
| PyTimeTool.DTransFailsOnlyShortTrace | pyana/timetool.py:357-367 | for a raw position inside the trace and a window of at least 50 samples, the assignment fails exactly when the window reaches past both ends of a trace longer than one sample |
| PyTimeTool.Calibrated | pyana/timetool.py:371-373 | the calibration polynomial p0 + p1 x + p2 x^2, stated by CalibrationMonotone |
| PyTimeTool.CalibrationMonotone | pyana/timetool.py:371-373 | with non-negative coefficients the calibration keeps the order of non-negative positions |
| RefStore.Stored | app/TimeToolB.cc:336-351 | the source is in the map afterwards: a source not yet present gets a copy of the reference, a present one the rolling average of the new reference into its stored one |
| RefStore.StoredKeepsOthers | app/TimeToolC.cc:311-327 | a store adds only its own source to the map and leaves every other source's reference as it was |
| RefStore.FetchedC | app/TimeToolC.cc:300-309 | with the source present m_ref becomes its stored reference (resized to it); without it m_ref is unchanged |
| RefStore.FetchedB | app/TimeToolB.cc:329-334 | with the source present the stored reference is copied over the start of m_ref_avg and the rest is kept; without it m_ref_avg is unchanged |
| RefStore.FirstReferenceReachesSignal | app/TimeToolB.cc:329-351 | the first reference stored for a source is exactly what that source's next signal event receives, in both variants |
| RefStore.Store.constructor | app/TimeToolB.cc:321 | the shared map starts empty |
| RefStore.FexB.constructor | app/TimeToolB.cc:329-334 | the hook keeps its source and its m_ref_avg |
| RefStore.FexB.MonitorRawSig | app/TimeToolB.cc:329-334 | m_ref_avg becomes FetchedB of the shared map |
| RefStore.FexB.MonitorRefSig | app/TimeToolB.cc:336-351 | the shared map becomes Stored of the new reference |
| RefStore.FexC.constructor | app/TimeToolC.cc:271-277 | the hook keeps its source and reference, and the event type starts as Dark |
| RefStore.FexC.Reset | app/TimeToolC.cc:284-288 | the event type becomes Dark and the reference is kept |
| RefStore.FexC.MonitorRawSig | app/TimeToolC.cc:300-309 | the event type becomes Signal and m_ref becomes FetchedC of the shared map |
| RefStore.FexC.MonitorRefSig | app/TimeToolC.cc:311-327 | the event type becomes Reference, m_ref is kept, and the shared map becomes Stored of the new reference |
| RefStore.CopyProjection | app/TimeToolC.cc:49-54 | the input is copied over the start of the output array and the rest of it is kept |
| RefStore.Worker.constructor | app/TimeToolC.cc:123 | all per-source vectors start empty |
| RefStore.Worker.Configure | app/TimeToolC.cc:243-258 | a TimeToolConfig container appends a Fex with its key and source, no frame, and a writer named base name + ":ARRAY", keeping the vectors in lockstep |
| RefStore.Worker.Unconfigure | app/TimeToolC.cc:127-135 | all the vectors are emptied together |
| RefStore.Worker.ClearFrames | app/TimeToolC.cc:142-143 | at the start of an L1Accept no Fex has a frame; the other vectors are kept |
| RefStore.Worker.CaptureFrame | app/TimeToolC.cc:232-242 | every Fex whose key equals the container's phy takes the frame; the others keep theirs |
| FrameTrim.TrimmedShorter | app/TimeToolA.cc:91-135 | the trim never writes more words than a tree occupies, so the write position never passes the read position |
| FrameTrim.TrimmedAllShorter | app/TimeToolA.cc:112-117 | the same for a run of sibling containers |
| FrameTrim.TrimmedIsPruned | app/TimeToolA.cc:102-135 | trimming a tree that is not itself a frame writes exactly the words of the tree with every frame removed and every intact container's extent recomputed |
| FrameTrim.TrimmedAllIsPruned | app/TimeToolA.cc:112-117 | the same for a run of siblings |
| FrameTrim.PrunedHasNoFrames | app/TimeToolA.cc:129-130 | the trimmed tree holds no frame |
| FrameTrim.PrunedAllHasNoFrames | app/TimeToolA.cc:129-130 | no sibling of a trimmed run holds a frame |
| FrameTrim.NoFramesUnchanged | app/TimeToolA.cc:102-135 | a tree without frames comes out word for word as it went in |
| FrameTrim.NoFramesAllUnchanged | app/TimeToolA.cc:112-117 | a run of siblings without frames comes out word for word |
| FrameTrim.Trimmer.constructor | app/TimeToolA.cc:89 | the trimmer shares the buffer and the write position |
| FrameTrim.Trimmer.Write | app/TimeToolA.cc:91-100 | n words from the read position are copied down to the write position, which advances by n; the words below it are untouched and, when the positions coincide, nothing moves |
| FrameTrim.Trimmer.Process | app/TimeToolA.cc:123-135 | the words written for a container are its trimmed words: a nested container trimmed, a frame dropped, anything else copied whole; nothing below the write position or after the container's words changes |
| FrameTrim.Trimmer.Iterate | app/TimeToolA.cc:102-120 | a damaged container is copied whole; an intact one is written as its trimmed words, with its extent the bytes written |
| FrameTrim.Trimmer.Children | app/TimeToolA.cc:106-119 | the header is copied, the children trimmed in order, and the written header's extent set to the size written |
| FrameTrim.Trimmer.Siblings | app/TimeToolA.cc:112-117 | the loop processes every child while payload words remain |
| FrameTrim.Trimmer.Child | app/TimeToolA.cc:113-116 | one turn processes the child at the read position and moves past its extent |
| FrameTrim.HeaderAt | app/TimeToolA.cc:103-113 | the damage, type and extent words of a stored container are read from its header |
| FrameTrim.Start | app/TimeToolA.cc:109-110 | after the header is copied no child has been processed |
| FrameTrim.Enter | app/TimeToolA.cc:112-114 | with payload words left, a child's words start at the read position and its extent gives its size |
| FrameTrim.Finish | app/TimeToolA.cc:112-117 | no payload words left means every child was processed and their trimmed words follow the header |
| FrameTrim.Close | app/TimeToolA.cc:119 | rewriting the written header's extent completes the trimmed container |
| FrameTrim.ChildStep | app/TimeToolA.cc:113-116 | one processed child carries the loop's facts over to the next |
| EvrFifo.Bucket | app/TimeToolB.cc:381 | a timestamp key selects one of the 32 buckets (`key & 0x1f`) |
| EvrFifo.Encoded | app/TimeToolB.cc:385-387 | the words past the payload are the count followed by the codes in order |
| EvrFifo.Decoded | app/TimeToolB.cc:204-209 | the rebuilt FIFO has `v[0]` events, the i-th carrying word i+1 as its code and the given timestamp tags |
| EvrFifo.Codes | app/TimeToolA.cc:338-339 | the codes of a FIFO, position by position |
| EvrFifo.RoundTrip | app/TimeToolC.cc:152-159 | whatever follows the encoded words, decoding them yields exactly the encoded codes in order, each tagged with the datagram's timestamp fields |
| EvrFifo.Decode | app/TimeToolC.cc:152-159 | the worker's loop builds exactly the decoded FIFO from the words |
| EvrFifo.WriteWords | app/TimeToolC.cc:370-374 | the count and codes are written into the first words past the payload and the words after them are untouched |
| EvrFifo.Recorder.constructor | app/TimeToolB.cc:364 | the appliance starts with 32 empty buckets |
| EvrFifo.Recorder.Occurrence | app/TimeToolB.cc:393-399 | an EVR command's code is appended to the bucket of its fiducials and every other bucket is unchanged |
| EvrFifo.Recorder.Encode | app/TimeToolC.cc:368-375 | on an L1Accept the bucket of the datagram's key is written past the payload as count and codes, later words are untouched, and only that bucket is emptied |
| EvrFifo.Recorder.HandOff | app/TimeToolA.cc:380-386 | the queued work item receives the bucket's codes in order, tagged 0, 0, and only that bucket is emptied |
| EvrFifo.RequestedCodes | app/TimeToolB.cc:147-153 | the requested list has no repetition and holds exactly the absolute values of the nonzero codes seen |
| EvrFifo.RequestedPrefix | app/TimeToolB.cc:164-167 | requests only grow: the list after some codes is a prefix of the list after more, so codes stay in first-seen order |
| EvrFifo.InsertCode | app/TimeToolA.cc:179-185 | the search loop and push_back compute one INSERT_CODE step |
| EvrFifo.RequestCodes | app/TimeToolB.cc:164-167 | configuring requests the beam-logic codes and then the laser-logic codes, one INSERT_CODE each |
| EventApp.RoleOf | event/TimeToolA.cc:206-228 | a record is taken as the frame exactly when it is a camera frame from the time tool's camera, as EVR data exactly when it is EVR data, and as the IPM record exactly when it is an IPM record whose source matches the IPM key |
| EventApp.LastOf | event/TimeToolA.cc:214-225 | the position of the last record of a role, if any: no later record has that role, and none at all when absent |
| EventApp.ObservedIsLast | event/TimeToolA.cc:206-228 | after a walk each kept reference holds the payload of the last record of its role, or its earlier value when none was reached |
| EventApp.ObserveAllAppend | event/TimeToolA.cc:208-209 | walking two runs of records is walking the first, then the second |
| EventApp.LeavesAllStep | event/TimeToolA.cc:208-209 | the records of a run of children are those of the earlier children followed by those of the next |
| EventApp.SeenIff | event/TimeToolA.cc:159-165 | from cleared references, a kept reference is set after the walk exactly when some record of its role was reached |
| EventApp.TimeToolA.constructor | event/TimeToolA.cc:135 | the appliance holds its configuration and no kept references |
| EventApp.TimeToolA.Process | event/TimeToolA.cc:206-228 | processing a record updates the kept references exactly as walking its records in order does |
| EventApp.TimeToolA.Iterate | event/TimeToolA.cc:208-209 | iterating a container's children updates the kept references as walking all their records in order |
| EventApp.TimeToolA.L1Accept | event/TimeToolA.cc:157-174 | the kept references are cleared and the datagram walked; analysis runs exactly when a frame from the time tool's camera and EVR data were reached, and the frame is trimmed exactly when analysis ran and the image is not kept |
| EventApp.SelectFex | app/TimeToolB.cc:211-216 | only the first fex whose frame cache holds a frame is analyzed, and none when no cache holds one |
| SimApp.Next | sim/SimApp.cc:25-26 | the shared counter stays below the frame width |
| SimApp.BarLength | sim/SimApp.cc:28-31 | the first do-while writes the counter's number of bar pixels, and one when the counter is 0 |
| SimApp.BarRowEnd | sim/SimApp.cc:32-34 | the second do-while stops at the width, or one past it for a width of 1 |
| SimApp.Filled | sim/SimApp.cc:21-23 | setting a range of pixels keeps the frame's size |
| SimApp.PaintedPixels | sim/SimApp.cc:14-38 | a painted frame has row 515 in background, row 555 starting with exactly the bar's length of bar pixels and background up to where the loop stops, and every other pixel unchanged |
| SimApp.NextBelow | sim/SimApp.cc:26 | a counter below the width goes up by one, or back to 0 on reaching the width |
| SimApp.SteadyCounter | sim/SimApp.cc:25-26 | with frames of one width the counter climbs by one per frame and wraps at the width |
| SimApp.BarCycles | sim/SimApp.cc:25-26 | after as many frames as the width, the bar is back at its starting length |
| SimApp.Simulator.constructor | sim/SimApp.cc:25 | the static counter starts at 0 |
| SimApp.Simulator.PaintFrame | sim/SimApp.cc:18-35 | painting a frame advances the counter and leaves the frame as the painted pattern for the new counter |
| SimApp.Simulator.Events | sim/SimApp.cc:14-64 | on an L1Accept only the frame the walk reaches along first children is painted, with the counter advanced before it, and every other frame is unchanged; no reached frame, or any other transition, changes nothing |
| SimApp.Simulator.PaintAll | sim/SimApp.cc:57-64 | the walk as evidently intended: each frame painted in turn, the counter advanced once per frame |
| SimApp.Reached | sim/SimApp.cc:14-37 | the frame the walk reaches: down the first child of each intact container, stopping at the first record |
| SimApp.ReachedIsFrame | sim/SimApp.cc:14-37 | the frame the walk reaches is a frame of the datagram |
| SimApp.FrameAfterOtherUnpainted | sim/SimApp.cc:37 | a frame that follows another record is a frame of the datagram that the walk does not reach |
| SimApp.Fill | sim/SimApp.cc:21-23 | the row-515 loop sets exactly its pixels and leaves the rest alone |
| SimApp.FillFrom | sim/SimApp.cc:28-34 | a do-while writes from its start up to its stop, at least one pixel, and leaves the rest alone |

## Left out

- service/Fitter.cc and service/Fitter.hh are not part of this model. They wrap the GSL nonlinear least-squares solver, whose code is not available.
- File and environment I/O is left out:
  - the parsing of the configuration file in `Fex::configure` and `Fex::unconfigure`. `Fex.Fex.Configured` takes the settings, the tuning lines and the stored reference those functions read.
  - the fopen/fscanf/fprintf bodies of `Spectrum::save_ref` and `load_ref`. Only their effect on the stored reference and on `_init` is modelled.
  - `getenv` and the `ttref_db` file reader of the Python prototype. The table is a parameter.
- Threads, semaphores, `Task`/`QueuedFex` scheduling and the worker pools are left out. The shared reference map is a plain map, and the hand-off to a worker is its copy of the bucket.
- `psalg::rolling_average` is not part of this model. In `RefStore` its effect is a function parameter; the service classes use their own `(1 - f) * old + f * new` update as written.
- EPICS output is left out: `_insert_pv`, PVWriter, the `ca_*` calls and the TimeToolEpics appliances only publish values.
- The command-line replay tools under ana/ are left out. So is app/ConfigHandler.cc, the configuration-database plumbing, whose `INSERT_CODE` copy is the one modelled.
- The newer Fex interface called from app/ and event/ is not among the source files. That covers the beam/laser event-logic evaluator, `m_get_key`, `m_ref` and `analyze(ndarray, fifo, ipm)`. `Fex` uses the boolean `bykik`/`no_laser` interface of service/Fex.hh, and `EvrFifo.RequestCodes` takes the logic codes as integers.
- Decompression of compressed frames and the raw casts are left out. Frames are sequences of pixel rows, and datagrams are container trees or word sequences.
- `EventApp.TimeToolA.L1Accept`: records only whether the analysis and the trim run; the analysis itself is `Fex.Fex.AnalyzeFrame` and the trim is `FrameTrim`.
- IEEE floating point is left out: no rounding, infinities or NaN. A division whose divisor the source does not check is a precondition: `_ref[k]` in the spectrum and in `Fex`, the ratio-fit correction, the parabola's `c`, the weight `sw`, and the reference in the Python normalisation.
- `RatioFit.RatioFit.Finalize`: a zero denominator (d with p1, vv without) keeps the old p0, p1 and chsq, where IEEE arithmetic would store infinity or NaN.
- Fields the source leaves uninitialised carry no meaning in the model. `_wtsig` in service/Fex.cc and `LineFit::_chsq` are not modelled. The constructors of `LineFit.LineFit` and `Fit.Fit` state nothing about the coefficients, or about the valid flag before the first valid fit.
- `SimApp`: a frame width of 0 is excluded. The source divides by the width and fails there.
- `SimApp.Simulator.Events`: the container walk follows the pdsdata `XtcIterator` convention, whose source is not part of this model: iteration stops at the first record whose `process` returns 0, and a container flagged IncompleteContribution is not entered. A record extent of 0 is not modelled.
- `EventApp.TimeToolA.Iterate`: a container carries no damage flag, so the walk enters every container. The framework iterator, like its copy at app/TimeToolA.cc:103-104, skips a container flagged IncompleteContribution; the records of such a container count as reached here.
- `Fit.Fit.Process`: a width that is not a finite double (the right-hand difference of the formula is 0) is stored as None; the infinite or NaN value itself is not modelled.
- `PyTimeTool.Referenced`: with the sideband in use, a learned signal reference does not make the references ready, because the code as written never clears the sideband flag (see `## Findings`). The model promises no readiness there.
- `Fex.Fex.FilteredPosAdj`: without a configuration file `_flt_center_ps` is never set; the model reads the centre from the settings in every case.
- The numeric type ids of the container, frame, EVR and IPM payloads and the damage bit come from framework headers that are not part of this model. They are parameters (`FrameTrim.Ids`) or named constructors (`Pds`).
- The Vimba frame type's version is defined in pds/config/VimbaDataType.hh, which is not part of this model. The model takes it to be 1. The frame formats themselves are not modelled.
- In the Python prototype, `numpy.polyfit` and the final position and amplitude taken from the fitted parabola are left out. The fit window, the spectrum window and the calibration are modelled. `np.convolve` is modelled as sums over the indices that exist.
- The `ConfigCache` accessors that only read fields of the stored configuration (`is_signal`, `amplitude` and the like) are left out.
- The framework's `FrameTrim(pdg, src)` and `FrameCache::instance`-driven capture used by app/TimeToolB.cc come from pds/client, which is not part of this model. Only the per-Fex selection `EventApp.SelectFex` is modelled.

## Findings

| source | as written | input that shows it | evidently intended | confidence | as-written member | corrected member |
|---|---|---|---|---|---|---|
| service/Fit.cc:46-48 | the right half-maximum crossing is interpolated with `qwf[ix_right+1]`, the sample beyond the crossing, instead of `qwf[ix_right-1]` | q = [0, 4, 10, 4, 0], peak at index 2: the crossings are at 7/6 and 17/6, so the width should be 5/3, but the formula gives 25/12 | the right crossing mirrors the left one, so a symmetric peak gets a symmetric width | not executed | Fit.AsWrittenAsymmetric | Fit.Crossings |
| service/Fit.cc:32-38 | `_valid` is only ever set to true, so a later fit that fails keeps the earlier fit's flag, amplitude and position | a valid fit followed by q = [0, 10, 0, 0] with its peak at 1: only two points reach the parabola, its determinant is 0, and the earlier result stays valid | each fit reports whether this fit succeeded | not executed | Fit.StaleValid | Fit.Fit.Refit |
| pyana/timetool.py:301-308 | the first reference shot copies only the signal reference. The sideband reference stays all zeros until a second reference shot blends into it | sideband enabled, one kicked shot, then a laser shot: the signal reference is learned, the sideband reference is still all zeros, and line 320 divides by it | the first reference shot copies both references, as it does for the signal | not executed | PyTimeTool.SidebandNeverCopied | PyTimeTool.LearnedKeepsSideband |
| sim/SimApp.cc:37 | `MyIter::process` returns 0, so the framework's iteration stops after the first record of each container: only a frame at the end of the chain of first children is painted | a datagram whose root holds another record and then a frame: the frame is never painted | every frame of an L1Accept gets the test pattern; the other `process` functions of the source return 1 | low (rests on the XtcIterator convention); not executed | SimApp.FrameAfterOtherUnpainted | SimApp.Simulator.PaintAll |

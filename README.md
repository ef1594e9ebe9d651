# video-segmentation: the density-pixel engine, modelled in Dafny

The video-segmentation program separates the moving parts of a video from its
static background. The video arrives as a sequence of frames of equal size.
For every pixel position it collects that pixel's colour across all frames
(the "time pixel"), converts each colour to HSL, and fits a density model to
those 3-vectors. The model is either a maximum-likelihood Gaussian (MLE) or a
kernel density estimate with Scott's-rule bandwidth (KDE). It stores the
density of every frame in a WIDTH × HEIGHT × N tensor. To extract the mask of
frame `k`, it starts a 4-connected flood fill at every pixel whose density is
at most `s`. The fill enters only pixels whose density is at most `s2`.
Low-density pixels are the unusual ones, so the mask shows what moves.

The model has one module per source concern:

- LinearAlgebra covers `Vector3` and `Matrix3`: the factories, operators,
  `outerp`, the matrix-vector product and the cofactor `inverse` with its
  zero-matrix fallback. The adjugate is proved correct over the reals.
- Statistics holds the sample mean and the unbiased sample covariance as
  functions of the samples, with their algebraic properties.
- MLE holds the class `MLEstimator`. `Fit` runs the accumulation loops and
  `EvaluateAll` the per-sample loop.
- KDE holds the class `KDEstimator`. `FitEvaluate` splits into the source's
  own stages: the bandwidth, the pairwise kernel matrix, the leave-one-out
  sums, the running maximum and the normalisation. Each stage is a method
  proved against a function.
- ColorSpace holds `RGBtoYCbCr`, `RGBtoHSL` and the `min`/`max` helpers.
- FloodFill defines the mask that `evaluate` should produce, as
  reachability over a grid of densities, and proves the fill's invariants.
- DensityPixel holds the class `DPEstimator`. It owns an `array3<real>`
  tensor and has `Fit`, `FitMle`, `FitKde`, `Evaluate` and a recursive
  `Spread` over an `array2<bool>` image. A marked cell stands in for a pixel
  painted red.
- MathLib states the only facts about `expf` the proofs use: it is positive
  and maps 0 to 1.

## Model

| member | source | states |
|---|---|---|
| LinearAlgebra.ZeroVector | video-segmentation/LinearAlgebra.hpp:30-32 | `Vector3::Zeros()`, which is also what the default constructor `Vector3()` builds; `FactoryEntries` states its components. |
| LinearAlgebra.OnesVector | video-segmentation/LinearAlgebra.hpp:33-35 | `Vector3::Ones()`; `FactoryEntries` states its components. |
| LinearAlgebra.ZeroMatrix | video-segmentation/LinearAlgebra.hpp:55-57 | `Matrix3::Zeros()`, which is also what the default constructor `Matrix3()` builds; `FactoryEntries` and `FactoryInverses` state its entries and inverse. |
| LinearAlgebra.OnesMatrix | video-segmentation/LinearAlgebra.hpp:58-60 | `Matrix3::Ones()`; `FactoryEntries` and `FactoryInverses` state its entries and inverse. |
| LinearAlgebra.Eye | video-segmentation/LinearAlgebra.hpp:61-63 | `Matrix3::Eye()`; `FactoryEntries`, `EyeIsIdentity` and `FactoryInverses` state its entries, its action and its inverse. |
| LinearAlgebra.Add | video-segmentation/LinearAlgebra.cpp:49-51 | Component-wise `u + v`; `ApplyDistributes` relates it to the matrix sum. |
| LinearAlgebra.Sub | video-segmentation/LinearAlgebra.cpp:53-55 | Component-wise `u - v`; `SubSelf` states `u - u == Zeros()`. |
| LinearAlgebra.Dot | video-segmentation/LinearAlgebra.cpp:57-59 | The dot product `u * v`; `DotCommutes`, `DotScales` and `DotZero` state its algebra. |
| LinearAlgebra.Scale | video-segmentation/LinearAlgebra.cpp:61-63 | `a * u`; `ScaleScale` and `ApplyScalesVector` state how it composes. |
| LinearAlgebra.Outer | video-segmentation/LinearAlgebra.cpp:38-42 | `outerp(u)`; `OuterSymmetric` and `OuterQuadraticForm` state its symmetry and its quadratic form. |
| LinearAlgebra.Apply | video-segmentation/LinearAlgebra.cpp:92-94 | `M * u`, one dot product per row; `EyeIsIdentity`, `ApplyDistributes`, `ApplyScalesMatrix`, `ApplyZero` and `ApplyAssociates` state its algebra. |
| LinearAlgebra.MScale | video-segmentation/LinearAlgebra.cpp:96-98 | `a * M`, row by row; `ApplyScalesMatrix` and `MScaleScale` state how it composes. |
| LinearAlgebra.MAdd | video-segmentation/LinearAlgebra.cpp:100-102 | `A + B`, row by row; `ApplyDistributes` and `SymmetricClosed` state its properties. |
| LinearAlgebra.MSub | video-segmentation/LinearAlgebra.cpp:104-106 | `A - B`, row by row; `SubSelf` states `A - A == Zeros()`. |
| LinearAlgebra.Det | video-segmentation/LinearAlgebra.cpp:79 | The cofactor expansion along the first row; `DetIsTriple` ties it to the triple product. |
| LinearAlgebra.Adjugate | video-segmentation/LinearAlgebra.cpp:85-87 | The transposed cofactor matrix written out entry by entry; `AdjugateRight` and `AdjugateLeft` prove it is the adjugate. |
| LinearAlgebra.Inverse | video-segmentation/LinearAlgebra.cpp:78-89 | The zero matrix for det = 0, else `1/det` times the adjugate; `InverseRight`, `InverseLeft` and `InverseZeroIffSingular` state what it promises. |
| LinearAlgebra.DotZero | video-segmentation/LinearAlgebra.cpp:57-59 | A dot product with the zero vector, on either side, is 0. |
| LinearAlgebra.MScaleScale | video-segmentation/LinearAlgebra.cpp:96-98 | Scaling a matrix by `b` and then by `a` is scaling it by `a·b`. |
| LinearAlgebra.FactoryEntries | video-segmentation/LinearAlgebra.hpp:30-63 | `Vector3::Zeros`/`Ones` have components 0 and 1. `Matrix3::Zeros`/`Ones` have every entry 0 and 1. `Eye` has 1 on the diagonal and 0 elsewhere. |
| LinearAlgebra.EyeIsIdentity | video-segmentation/LinearAlgebra.hpp:61-63 | `Eye() * u == u` for every vector `u`. |
| LinearAlgebra.FactoryInverses | video-segmentation/LinearAlgebra.hpp:55-65 | `Eye().inverse() == Eye()`. `Zeros()` and `Ones()` have determinant 0, so their inverse is `Zeros()`. |
| LinearAlgebra.InverseZeroIffSingular | video-segmentation/LinearAlgebra.cpp:78-88 | `inverse()` returns the zero matrix exactly when the determinant of line 79 is 0, in both directions. |
| LinearAlgebra.AdjugateRight | video-segmentation/LinearAlgebra.cpp:79-87 | M times the adjugate of lines 85-87 is det(M) times the identity. |
| LinearAlgebra.AdjugateLeft | video-segmentation/LinearAlgebra.cpp:79-87 | The adjugate of lines 85-87 times M is det(M) times the identity. |
| LinearAlgebra.InverseRight | video-segmentation/LinearAlgebra.cpp:78-94 | For det ≠ 0, `M * (M.inverse() * u) == u` for every `u`. |
| LinearAlgebra.InverseLeft | video-segmentation/LinearAlgebra.cpp:78-94 | For det ≠ 0, `M.inverse() * (M * u) == u` for every `u`. |
| LinearAlgebra.DetIsTriple | video-segmentation/LinearAlgebra.cpp:79 | The determinant of line 79 is the triple product of the rows, and also of the columns. |
| LinearAlgebra.OuterSymmetric | video-segmentation/LinearAlgebra.cpp:38-42 | `outerp(u)` is symmetric: entry (r,c) equals entry (c,r). |
| LinearAlgebra.OuterQuadraticForm | video-segmentation/LinearAlgebra.cpp:38-42 | `u * (outerp(v) * u) == (u*v)²`, which is never negative. |
| LinearAlgebra.DotCommutes | video-segmentation/LinearAlgebra.cpp:57-59 | The dot product is commutative. |
| LinearAlgebra.DotScales | video-segmentation/LinearAlgebra.cpp:57-63 | Scaling either argument of the dot product by `c` scales the result by `c`. |
| LinearAlgebra.ApplyDistributes | video-segmentation/LinearAlgebra.cpp:92-102 | `(A + B) * u == A*u + B*u`. |
| LinearAlgebra.ApplyScalesMatrix | video-segmentation/LinearAlgebra.cpp:92-98 | `(a * M) * u == a * (M * u)`. |
| LinearAlgebra.ApplyScalesVector | video-segmentation/LinearAlgebra.cpp:61-63 | `M * (a * u) == a * (M * u)`. |
| LinearAlgebra.ApplyZero | video-segmentation/LinearAlgebra.cpp:92-94 | A matrix applied to the zero vector, or the zero matrix applied to any vector, gives the zero vector. |
| LinearAlgebra.SubSelf | video-segmentation/LinearAlgebra.cpp:53-55 | `A - A == Matrix3::Zeros()` and `u - u == Vector3::Zeros()`. |
| LinearAlgebra.SymmetricClosed | video-segmentation/LinearAlgebra.cpp:96-106 | Sums, differences and scalar multiples of symmetric matrices are symmetric. |
| LinearAlgebra.ApplyAssociates | video-segmentation/LinearAlgebra.cpp:92-94 | Applying B and then A equals applying the product AB. |
| LinearAlgebra.CrossOrthogonal | video-segmentation/LinearAlgebra.cpp:85-87 | The cross product (the cofactor pattern of lines 85-87) is orthogonal to both of its factors. |
| Statistics.Sum | video-segmentation/MLEstimator.cpp:47-49 | The loop's running sum from `Vector3::Zeros()`, in index order; `Mean` and `SumOfCopies` state what it adds up to. |
| Statistics.OuterSum | video-segmentation/MLEstimator.cpp:53-55 | The loop's running sum of `outerp(data[k])` from `Matrix3::Zeros()`; `OuterSumSymmetric` and `CenteredScatterExpansion` state its properties. |
| Statistics.OuterSumSymmetric | video-segmentation/MLEstimator.cpp:53-55 | The sum of outer products is symmetric. |
| Statistics.ScatterAboutMean | video-segmentation/MLEstimator.cpp:56 | `Σ outerp(x_k) − n · outerp(mean)`; `ScatterAboutMeanIsCentered` proves it equals `Σ outerp(x_k − mean)`. |
| Statistics.ScatterAboutMeanIsCentered | video-segmentation/MLEstimator.cpp:53-56 | `Σ outerp(x_k) − n · outerp(mean) == Σ outerp(x_k − mean)`. |
| Statistics.Covariance | video-segmentation/MLEstimator.cpp:56 | The one-pass formula `1/(n-1) · (Σ outerp(x_k) − n · outerp(mean))`; `CovarianceIsUnbiased` and `CovarianceSymmetric` state what it is. |
| Statistics.SumOfCopies | video-segmentation/MLEstimator.cpp:47-49 | The sum of n copies of x is n·x. |
| Statistics.ScatterOfCopies | video-segmentation/MLEstimator.cpp:53-56 | Identical samples have zero scatter about their common value. |
| Statistics.Mean | video-segmentation/MLEstimator.cpp:47-50 | n times the mean is the component-wise sum of the samples. |
| Statistics.CovarianceIsUnbiased | video-segmentation/MLEstimator.cpp:53-56 | `(1/(n-1)) · (Σ outerp(x_k) − n · outerp(mean))` equals `1/(n-1) · Σ outerp(x_k − mean)`. |
| Statistics.CenteredScatterExpansion | video-segmentation/MLEstimator.cpp:53-56 | Σ outerp(x_k − m) expands into the outer sum, the sum and n, for every m. |
| Statistics.CovarianceSymmetric | video-segmentation/MLEstimator.cpp:53-56 | The covariance of n ≥ 2 samples is symmetric. |
| Statistics.MeanOfCopies | video-segmentation/MLEstimator.cpp:47-50 | The mean of identical samples is that sample. |
| Statistics.IdenticalSamples | video-segmentation/MLEstimator.cpp:47-57 | For n ≥ 2 identical samples, the mean is the sample, the covariance is `Zeros()` and its inverse is `Zeros()`. |
| MLE.LogDensity | video-segmentation/MLEstimator.cpp:16-20 | The exponent `(-0.5 · temp) · (cov_inv · temp)`, grouped as C++ groups it; the two lemmas below state what it is. |
| MLE.LogDensityIsQuadraticForm | video-segmentation/MLEstimator.cpp:16-20 | The exponent is `-0.5 · (x−mean)·(covInv·(x−mean))`, minus half the quadratic form of `cov_inv`. |
| MLE.LogDensityAtMean | video-segmentation/MLEstimator.cpp:16-20 | `evaluate(mean, true) == 0` for any mean and `cov_inv`. |
| MLE.LogDensityZeroInverse | video-segmentation/MLEstimator.cpp:16-20 | With `cov_inv == Zeros()`, the exponent is 0 at every point. |
| MLE.LogDensityVanishes | video-segmentation/MLEstimator.cpp:16-20 | The exponent is 0 at the mean, and 0 everywhere when `cov_inv` is zero. |
| MLE.Density | video-segmentation/MLEstimator.cpp:15-22 | With a positive `exp`, the non-log value is positive. At the mean, or with a zero `cov_inv`, the value is 0 in log form and 1 otherwise. |
| MLE.FittedDensities | video-segmentation/MLEstimator.cpp:24-41 | A fitted model evaluated at its own samples gives one positive density per sample. |
| MLE.MLEstimator.constructor | video-segmentation/MLEstimator.cpp:11-13 | The default constructor leaves mean, cov and cov_inv at zero. |
| MLE.MLEstimator.Fit | video-segmentation/MLEstimator.cpp:43-58 | After `fit`, `n` is the sample count, `mean` is `Mean(data)`, `cov` is the unbiased covariance and `cov_inv` is its `inverse()`. |
| MLE.MLEstimator.Evaluate | video-segmentation/MLEstimator.cpp:15-22 | The log form is the quadratic form. The exp form is positive. At the mean, or with a zero `cov_inv`, the result is 0 (log) or 1. |
| MLE.MLEstimator.EvaluateAll | video-segmentation/MLEstimator.cpp:24-41 | The output has the input's length, and entry k is the single-sample `evaluate(x[k], log)`. |
| MLE.IdenticalSamplesDensity | video-segmentation/MLEstimator.cpp:15-57 | A model fitted to identical samples gives log-density 0 and density 1 everywhere. |
| KDE.Bandwidth | video-segmentation/KDEstimator.cpp:24-33 | `powf(n, -2/7) / (n-1) · (Σ outerp(x_k) − n · outerp(mean))`, as line 33 writes it; the two lemmas below state what it is. |
| KDE.BandwidthIsScaledCovariance | video-segmentation/KDEstimator.cpp:24-33 | H equals `n^(-2/7)` times the unbiased covariance of the same data, as `MLEstimator::fit` computes it (Scott's rule for d = 3). |
| KDE.BandwidthSymmetric | video-segmentation/KDEstimator.cpp:24-33 | H is symmetric. |
| KDE.ScaleByQuotient | video-segmentation/KDEstimator.cpp:33 | Scaling by `p / d` is scaling by `1 / d` and then by `p`. |
| KDE.KernelAt | video-segmentation/KDEstimator.cpp:15-17 | `kernel(u) = exp(-0.5 · u·(H_inv·u))`, which is positive. |
| KDE.KernelAtZeroDifference | video-segmentation/KDEstimator.cpp:15-17 | The kernel at the zero difference is 1. |
| KDE.KernelAtZeroInverse | video-segmentation/KDEstimator.cpp:15-34 | With a zero `H_inv` (singular bandwidth), every kernel value is 1. |
| KDE.KernelEven | video-segmentation/KDEstimator.cpp:15-17 | `kernel(a − b) == kernel(b − a)`. |
| KDE.KernelTable | video-segmentation/KDEstimator.cpp:38-45 | K is n × n and symmetric, with 1 on the diagonal. |
| KDE.KernelTableIsPairwise | video-segmentation/KDEstimator.cpp:41-43 | Off the diagonal, `K[i][j] == kernel(data[i] − data[j])`. |
| KDE.KernelMatrix | video-segmentation/KDEstimator.cpp:38-45 | The upper-triangle loop that mirrors each entry builds exactly `KernelTable`. |
| KDE.SumExcept | video-segmentation/KDEstimator.cpp:50-53 | The inner loop's sum of `K[i][j]` over `j < m`, `j != i`; `SumExceptIsRowSumLessDiagonal` and `SumExceptPositive` state what it is. |
| KDE.LooSums | video-segmentation/KDEstimator.cpp:48-53 | One leave-one-out sum per row of K, n values in row order. |
| KDE.SumExceptIsRowSumLessDiagonal | video-segmentation/KDEstimator.cpp:50-53 | The `i != j` sum is the row sum minus the diagonal entry, so the diagonal is excluded. |
| KDE.SumExceptPositive | video-segmentation/KDEstimator.cpp:50-53 | With positive off-diagonal kernels, a leave-one-out sum over at least two samples is positive. |
| KDE.LeaveOneOutSums | video-segmentation/KDEstimator.cpp:48-53 | The accumulation loop gives `y[i] = Σ_{j≠i} K[i][j]` for every i. |
| KDE.Peak | video-segmentation/KDEstimator.cpp:56-59 | The running maximum is ≥ 0 and ≥ every `y[k]`, and it is 0 or one of the `y[k]`. |
| KDE.MaxDensity | video-segmentation/KDEstimator.cpp:56-59 | The loop computes `Peak(y)`. |
| KDE.Normalised | video-segmentation/KDEstimator.cpp:62-63 | Each normalised entry times `max_d` gives back the original entry. |
| KDE.Normalise | video-segmentation/KDEstimator.cpp:62-63 | The in-place division loop computes `Normalised(y, max_d)`. |
| KDE.NormalisedByPeak | video-segmentation/KDEstimator.cpp:56-63 | Positive sums divided by their maximum lie in (0, 1], and at least one equals 1. |
| KDE.LooSumsPositive | video-segmentation/KDEstimator.cpp:15-53 | For n ≥ 2 and a positive `exp`, every leave-one-out sum is positive. |
| KDE.KdeSums | video-segmentation/KDEstimator.cpp:19-53 | The unnormalised sums are n positive values. |
| KDE.KdeDensities | video-segmentation/KDEstimator.cpp:19-66 | `fit_evaluate` returns n values, one per sample in input order, each in (0, 1], and some value is exactly 1. |
| KDE.SingleSampleDegenerate | video-segmentation/KDEstimator.cpp:48-59 | With one sample, `y[0] = 0` and `max_d = 0`, so the normalisation would divide by zero. |
| KDE.KDEstimator.constructor | video-segmentation/KDEstimator.cpp:11-13 | The default constructor leaves H and H_inv at zero. |
| KDE.KDEstimator.FitBandwidth | video-segmentation/KDEstimator.cpp:20-34 | It sets `n`, sets `H` to `Bandwidth(data)` and sets `H_inv` to `H.inverse()`. |
| KDE.KDEstimator.FitEvaluate | video-segmentation/KDEstimator.cpp:19-66 | It sets `n`, `H` and `H_inv`, and returns exactly `KdeDensities(data)`. |
| ColorSpace.Max2 | video-segmentation/DPEstimator.cpp:154-159 | The result is at least both arguments and equals one of them. |
| ColorSpace.Max3 | video-segmentation/DPEstimator.cpp:161-163 | The result is at least all three arguments and equals one of them. |
| ColorSpace.Min2 | video-segmentation/DPEstimator.cpp:165-170 | The result is at most both arguments and equals one of them. |
| ColorSpace.Min3 | video-segmentation/DPEstimator.cpp:172-174 | The result is at most all three arguments and equals one of them. |
| ColorSpace.RgbToYCbCr | video-segmentation/DPEstimator.cpp:116-122 | Grey (r = g = b) maps to (r, 128, 128). Y stays in [0, 255], and Cb and Cr stay in [0.5, 255.5]. |
| ColorSpace.Unit | video-segmentation/DPEstimator.cpp:126 | A channel divided by 255 lies in [0, 1]. |
| ColorSpace.RgbToHsl | video-segmentation/DPEstimator.cpp:124-152 | The result is defined for every colour. L and SL lie in [0, 1], and H/360 lies in [-1/6, 5/6], with no wrap of negative hues. Grey maps to (0, 0, r/255). |
| ColorSpace.Hue | video-segmentation/DPEstimator.cpp:135-143 | The hue chain: 0 for C = 0, else the R, G or B sector formula; `HueBounds` bounds it. |
| ColorSpace.Saturation | video-segmentation/DPEstimator.cpp:145-149 | 0 for L = 0 or L = 1, else `(V − L) / min(L, 1 − L)`; `SaturationBounds` bounds it. |
| ColorSpace.HueChainExhaustive | video-segmentation/DPEstimator.cpp:129-143 | The maximum V of the three channels equals one of them, so the hue chain never falls through its last test. |
| ColorSpace.HueBounds | video-segmentation/DPEstimator.cpp:135-143 | Every branch of the hue chain gives a value in [-60, 300] degrees. |
| ColorSpace.SaturationBounds | video-segmentation/DPEstimator.cpp:129-149 | For channels in [0, 1], L and SL lie in [0, 1]. |
| FloodFill.DiagonalNotAdjacent | video-segmentation/DPEstimator.cpp:59-66 | Two cells that differ in both coordinates are never neighbours of the fill. |
| FloodFill.ClosedSetIsMask | video-segmentation/DPEstimator.cpp:47-66 | A set that holds every seed, in which every cell is in the mask and has all its open neighbours marked, is exactly the mask. |
| FloodFill.SeedStep | video-segmentation/DPEstimator.cpp:49-50 | After a fill from a seed, every marked cell is still done and in the mask. |
| FloodFill.ProgressStep | video-segmentation/DPEstimator.cpp:59-66 | One recursive call on an open neighbour keeps every newly marked cell done and reachable from the starting cell. |
| FloodFill.ProgressComplete | video-segmentation/DPEstimator.cpp:56-67 | Once all four neighbour tests are done, every cell the call marked is done and reachable from its start. |
| FloodFill.PathStaysMarked | video-segmentation/DPEstimator.cpp:59-66 | A path of open cells that starts in a closed marked set stays in it. |
| FloodFill.SeedsBeforeStep | video-segmentation/DPEstimator.cpp:47-50 | Handling pixel (i, j) of the scan advances the "every earlier seed is marked" invariant by one pixel, and to the next column at the end of a column. |
| FloodFill.MaskMonotone | video-segmentation/DPEstimator.cpp:49-66 | Raising `s` or `s2` can only grow the mask. |
| FloodFill.SeedInMask | video-segmentation/DPEstimator.cpp:49-50 | Every seed (density ≤ `s`) is in the mask. |
| FloodFill.MaskInGrid | video-segmentation/DPEstimator.cpp:59-66 | Every mask cell lies inside [0, WIDTH) × [0, HEIGHT). |
| DensityPixel.TimePixel | video-segmentation/DPEstimator.cpp:80-82 | The time pixel has one HSL vector per frame. |
| DensityPixel.TimePixelIsLocal | video-segmentation/DPEstimator.cpp:77-91 | The time pixel at (i, j) depends only on pixel (i, j) of each frame. |
| DensityPixel.DPEstimator.constructor | video-segmentation/DPEstimator.cpp:18-20 | The empty constructor gives an empty tensor. |
| DensityPixel.DPEstimator.Fit | video-segmentation/DPEstimator.cpp:22-41 | The tensor is WIDTH × HEIGHT × N from the first frame. "mle" and "kde" fill every pixel with its own estimator's densities. Any other method string leaves all zeros. |
| DensityPixel.DPEstimator.LoadTimePixel | video-segmentation/DPEstimator.cpp:80-82 | The per-frame loop builds exactly `TimePixel(frames, i, j)`. |
| DensityPixel.DPEstimator.FitMle | video-segmentation/DPEstimator.cpp:70-92 | Every `tensorDensity[i][j]` holds the N MLE densities of its own time pixel. |
| DensityPixel.DPEstimator.FitMlePixel | video-segmentation/DPEstimator.cpp:79-89 | One pixel step of `fit_mle` advances the "every earlier pixel filled" invariant. |
| DensityPixel.DPEstimator.MlePixel | video-segmentation/DPEstimator.cpp:79-89 | Fitting and evaluating an `MLEstimator` on the time pixel gives `FittedDensities` of it. |
| DensityPixel.DPEstimator.FitKde | video-segmentation/DPEstimator.cpp:94-114 | Every `tensorDensity[i][j]` holds the N KDE densities of its own time pixel. |
| DensityPixel.DPEstimator.FitKdePixel | video-segmentation/DPEstimator.cpp:105-111 | One pixel step of `fit_kde` advances the "every earlier pixel filled" invariant. |
| DensityPixel.DPEstimator.KdePixel | video-segmentation/DPEstimator.cpp:105-111 | `fit_evaluate` on the time pixel gives `KdeDensities` of it. |
| DensityPixel.DPEstimator.StoreDensities | video-segmentation/DPEstimator.cpp:89-111 | The assignment `tensorDensity[i][j] = y` writes those N values and changes no other pixel. |
| DensityPixel.DPEstimator.Spread | video-segmentation/DPEstimator.cpp:55-68 | A marked start pixel changes nothing. Otherwise the call marks the start pixel and unmarks nothing. Every newly marked pixel has all its open neighbours marked and is reachable from the start. The recursion terminates. |
| DensityPixel.DPEstimator.Visit | video-segmentation/DPEstimator.cpp:59-66 | One guarded neighbour test (in range and density ≤ `s2`): an open neighbour ends up marked, and the progress of the enclosing call is kept. |
| DensityPixel.DPEstimator.Evaluate | video-segmentation/DPEstimator.cpp:43-53 | The returned image is WIDTH × HEIGHT. A pixel is marked exactly when a seed reaches it through 4-adjacent pixels of density ≤ `s2`. Every other pixel stays unmarked. |
| DensityPixel.DPEstimator.SpreadColumn | video-segmentation/DPEstimator.cpp:48-50 | The inner loop over column i marks every seed of that column and keeps every marked pixel done and in the mask. |
| DensityPixel.DPEstimator.SpreadFromSeed | video-segmentation/DPEstimator.cpp:49-50 | The seed test and its `spread` call mark the pixel when it is a seed and keep the loop invariants. |

## Left out

- GMEstimator.cpp/.hpp is not part of this model. Its `fit` is declared but never defined.
- Program.cpp, Program.hpp and main.cpp are not part of this model. They hold the SFML window, the event loop, textures, directory scanning and argument parsing.
- Image loading is not modelled. `fit`, `fit_mle` and `fit_kde` take an in-memory sequence of equal-size frames of (r, g, b) colours instead of file names. `getSize` and `getPixel` become the frame's width, height and `pixel[i][j]`.
- Printing is not modelled: neither the unknown-method message in `fit` nor the progress line in `fit_kde`.
- Floating point is not modelled. `real` stands in for `float`, so rounding, overflow, NaN and infinities are absent. So is the effect of the exact `det == 0`, `C == 0` and `L == 0 || L == 1` tests on rounded values.
- MLE.MLEstimator.Fit requires at least two samples: with one, the source computes `1/float(n-1)`, which is infinite or NaN.
- KDE.KDEstimator.FitBandwidth requires at least two samples, for the same `1/float(n-1)`.
- KDE.KDEstimator.FitEvaluate requires at least two samples. With one, the source also divides by `max_d = 0`; `KDE.SingleSampleDegenerate` proves that `max_d` is 0 there.
- DensityPixel.DPEstimator.Fit requires at least two equal-size frames when the method is "mle" or "kde", for the same reason.
- DensityPixel.DPEstimator.Evaluate requires `0 <= k < N`. The source does not check the index, so with any other `k` it reads outside the tensor.
- expf and `powf` are function parameters. The proofs use only `exp > 0` and `exp(0) = 1`, and nothing about `pow`.
- `Vector3::toColor` and the constructors from `sf::Vector3i`, `sf::Vector3f` and `sf::Color` are not modelled: they are casts into and out of SFML types. The alpha channel of a colour plays no part.
- The constructors of `MLEstimator`, `KDEstimator` and `DPEstimator` leave the sample count and the sizes uninitialised in the source; the model sets them to 0.
- Copying a `std::vector<float>` into `tensorDensity[i][j]` is modelled by `StoreDensities`, a loop over k.
- The body of each fitting loop is split into its own method, `FitMlePixel` or `FitKdePixel`. The body of `evaluate`'s outer loop is `SpreadColumn`, and one seed test is `SpreadFromSeed`.
- In `spread`, each of the four guarded neighbour tests is the method `Visit`. `Spread` decreases the set of unmarked pixels, which is how its termination is proved.
- The header declarations that disagree with the .cpp files are not modelled; the .cpp files are followed:
  - DPEstimator.hpp declares `evaluate(int, float)`, `loadData` and argument-less `fit_mle`/`fit_kde`.
  - MLEstimator.hpp lacks the vector `evaluate`.
  - LinearAlgebra.hpp declares `outerp` as a member.
- ColorSpace.RgbToYCbCr uses the source's rounded coefficients (0.1687, 0.3313, 0.4187, 0.0813) rather than the exact fractions of ITU-T T.871 clause 7; both sets give an unclamped chroma range of [0.5, 255.5]. T.871 reaches [0, 255] by rounding and clamping the result, and the source does neither, so the model does not either.
- ColorSpace.RgbToHsl does not wrap a negative hue into [0, 360): the source does not, so H/360 can be as low as -1/6.

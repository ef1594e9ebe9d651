/** `DPEstimator`, the density-pixel estimator: for every pixel position it
    fits a density model to that pixel's HSL colour across all frames and
    stores one density per frame in a WIDTH × HEIGHT × N tensor; `evaluate`
    then extracts a mask for one frame by flood fill from the low-density
    pixels. */
module DensityPixel {
  import opened LinearAlgebra
  import opened MathLib
  import opened ColorSpace
  import MLE
  import KDE
  import opened FloodFill

  /** An in-memory frame: `pixel[i][j]` is `getPixel(i, j)`, for
      `0 <= i < width` and `0 <= j < height`. */
  datatype Image = Image(width: nat, height: nat, pixel: seq<seq<Color>>)

  predicate WellFormed(img: Image) {
    |img.pixel| == img.width && forall i :: 0 <= i < img.width ==> |img.pixel[i]| == img.height
  }

  /** Every frame well formed and of the size of the first one. */
  predicate SameSize(frames: seq<Image>) {
    |frames| >= 1 &&
    forall k :: 0 <= k < |frames| ==>
      WellFormed(frames[k]) && frames[k].width == frames[0].width && frames[k].height == frames[0].height
  }

  /** The time pixel at (i, j): that pixel's HSL colour in every frame, in frame order. */
  function TimePixel(frames: seq<Image>, i: int, j: int): (t: seq<Vector3>)
    requires SameSize(frames)
    requires 0 <= i < frames[0].width && 0 <= j < frames[0].height
    ensures |t| == |frames|
  {
    seq(|frames|, k requires 0 <= k < |frames| => RgbToHsl(frames[k].pixel[i][j]))
  }

  /** The time pixel at (i, j) depends on pixel (i, j) of each frame and on nothing else. */
  lemma TimePixelIsLocal(frames: seq<Image>, other: seq<Image>, i: int, j: int)
    requires SameSize(frames) && SameSize(other) && |frames| == |other|
    requires 0 <= i < frames[0].width && 0 <= j < frames[0].height
    requires 0 <= i < other[0].width && 0 <= j < other[0].height
    requires forall k :: 0 <= k < |frames| ==> frames[k].pixel[i][j] == other[k].pixel[i][j]
    ensures TimePixel(frames, i, j) == TimePixel(other, i, j)
  {
  }

  class DPEstimator {
    var N: int
    var WIDTH: int
    var HEIGHT: int
    /** `tensorDensity[i][j][k]`: the density of pixel (i, j) in frame k. */
    var tensorDensity: array3<real>

    ghost predicate Valid()
      reads this
    {
      tensorDensity.Length0 == WIDTH && tensorDensity.Length1 == HEIGHT && tensorDensity.Length2 == N
    }

    /** The empty constructor; the sizes are unset in the source and are 0 here. */
    constructor()
      ensures Valid() && N == 0 && WIDTH == 0 && HEIGHT == 0
    {
      N, WIDTH, HEIGHT := 0, 0, 0;
      tensorDensity := new real[0, 0, 0];
    }

    // ----- Fitting -----

    /** The N densities stored for pixel (a, b), in frame order. */
    ghost function PixelDensities(a: int, b: int): (y: seq<real>)
      requires Valid() && 0 <= a < WIDTH && 0 <= b < HEIGHT
      reads this, tensorDensity
      ensures |y| == N
      ensures forall c :: 0 <= c < N ==> y[c] == tensorDensity[a, b, c]
    {
      var t := tensorDensity;
      seq(N, c requires 0 <= c < t.Length2 && 0 <= a < t.Length0 && 0 <= b < t.Length1 reads t => t[a, b, c])
    }

    /** Every pixel holds the maximum-likelihood model of its own time pixel,
        evaluated at each frame. */
    ghost predicate MleFilled(frames: seq<Image>, exp: real -> real)
      requires Valid() && SameSize(frames) && N == |frames| >= 2 && IsExp(exp)
      requires WIDTH == frames[0].width && HEIGHT == frames[0].height
      reads this, tensorDensity
    {
      forall a, b :: 0 <= a < WIDTH && 0 <= b < HEIGHT ==>
        PixelDensities(a, b) == MLE.FittedDensities(TimePixel(frames, a, b), exp)
    }

    /** Every pixel holds the kernel density estimate of its own time pixel. */
    ghost predicate KdeFilled(frames: seq<Image>, pow: (real, real) -> real, exp: real -> real)
      requires Valid() && SameSize(frames) && N == |frames| >= 2 && IsExp(exp)
      requires WIDTH == frames[0].width && HEIGHT == frames[0].height
      reads this, tensorDensity
    {
      forall a, b :: 0 <= a < WIDTH && 0 <= b < HEIGHT ==>
        PixelDensities(a, b) == KDE.KdeDensities(TimePixel(frames, a, b), pow, exp)
    }

    /** The pixels before (i, j) in the scan order of the fitting loops (column
        by column, each from the top) hold the densities `target` gives them. */
    ghost predicate FilledBefore(target: (int, int) -> seq<real>, i: int, j: int)
      requires Valid()
      reads this, tensorDensity
    {
      forall a, b :: 0 <= a < WIDTH && 0 <= b < HEIGHT && (a < i || (a == i && b < j)) ==>
        PixelDensities(a, b) == target(a, b)
    }

    /** `fit`: size the tensor from the first frame, fill it with zeros, then
        run the estimator the method string names; an unknown name leaves the
        zeros in place. */
    method Fit(frames: seq<Image>, method_: string, pow: (real, real) -> real, exp: real -> real)
      requires |frames| >= 1 && WellFormed(frames[0])
      requires method_ == "mle" || method_ == "kde" ==> SameSize(frames) && |frames| >= 2 && IsExp(exp)
      modifies this
      ensures Valid() && fresh(tensorDensity)
      ensures N == |frames| && WIDTH == frames[0].width && HEIGHT == frames[0].height
      ensures method_ == "mle" ==> MleFilled(frames, exp)
      ensures method_ == "kde" ==> KdeFilled(frames, pow, exp)
      ensures method_ != "mle" && method_ != "kde" ==>
        forall a, b, c :: 0 <= a < WIDTH && 0 <= b < HEIGHT && 0 <= c < N ==> tensorDensity[a, b, c] == 0.0
    {
      N := |frames|;
      WIDTH := frames[0].width;
      HEIGHT := frames[0].height;
      tensorDensity := new real[WIDTH, HEIGHT, N]((_, _, _) => 0.0);
      if method_ == "mle" {
        FitMle(frames, exp);
      } else if method_ == "kde" {
        FitKde(frames, pow, exp);
      }
    }

    /** Build the time pixel at (i, j), frame by frame. */
    static method LoadTimePixel(frames: seq<Image>, i: int, j: int) returns (timePixel: seq<Vector3>)
      requires SameSize(frames)
      requires 0 <= i < frames[0].width && 0 <= j < frames[0].height
      ensures timePixel == TimePixel(frames, i, j)
    {
      timePixel := seq(|frames|, _ => ZeroVector());
      for k := 0 to |frames|
        invariant |timePixel| == |frames|
        invariant forall c :: 0 <= c < k ==> timePixel[c] == RgbToHsl(frames[c].pixel[i][j])
      {
        timePixel := timePixel[k := RgbToHsl(frames[k].pixel[i][j])];
      }
    }

    /** The maximum-likelihood densities of every pixel, as one table. */
    static ghost function MleTarget(frames: seq<Image>, exp: real -> real): (int, int) -> seq<real>
      requires SameSize(frames) && |frames| >= 2 && IsExp(exp)
    {
      (a, b) => if 0 <= a < frames[0].width && 0 <= b < frames[0].height
                then MLE.FittedDensities(TimePixel(frames, a, b), exp) else []
    }

    /** The kernel density estimates of every pixel, as one table. */
    static ghost function KdeTarget(frames: seq<Image>, pow: (real, real) -> real, exp: real -> real): (int, int) -> seq<real>
      requires SameSize(frames) && |frames| >= 2 && IsExp(exp)
    {
      (a, b) => if 0 <= a < frames[0].width && 0 <= b < frames[0].height
                then KDE.KdeDensities(TimePixel(frames, a, b), pow, exp) else []
    }

    /** `fit_mle`: for each pixel, fit a fresh `MLEstimator` to its time pixel
        and store its densities at the same samples. */
    method FitMle(frames: seq<Image>, exp: real -> real)
      requires Valid() && SameSize(frames) && N == |frames| >= 2 && IsExp(exp)
      requires WIDTH == frames[0].width && HEIGHT == frames[0].height
      modifies tensorDensity
      ensures MleFilled(frames, exp)
    {
      ghost var target := MleTarget(frames, exp);
      for i := 0 to WIDTH
        invariant FilledBefore(target, i, 0)
      {
        for j := 0 to HEIGHT
          invariant FilledBefore(target, i, j)
        {
          FitMlePixel(frames, exp, i, j, target);
        }
      }
      forall a, b | 0 <= a < WIDTH && 0 <= b < HEIGHT
        ensures PixelDensities(a, b) == MLE.FittedDensities(TimePixel(frames, a, b), exp)
      {
        assert PixelDensities(a, b) == target(a, b);
      }
    }

    /** The body of `fit_mle`'s loops for pixel (i, j): the pixel's densities
        become those of the model fitted to its time pixel, and the pixels
        before it keep theirs. */
    method FitMlePixel(frames: seq<Image>, exp: real -> real, i: int, j: int, ghost target: (int, int) -> seq<real>)
      requires Valid() && SameSize(frames) && N == |frames| >= 2 && IsExp(exp)
      requires WIDTH == frames[0].width && HEIGHT == frames[0].height
      requires 0 <= i < WIDTH && 0 <= j < HEIGHT
      requires FilledBefore(target, i, j) && target(i, j) == MLE.FittedDensities(TimePixel(frames, i, j), exp)
      modifies tensorDensity
      ensures FilledBefore(target, i, j + 1)
      ensures j + 1 == HEIGHT ==> FilledBefore(target, i + 1, 0)
    {
      var y := MlePixel(frames, exp, i, j);
      StoreDensities(i, j, y, target);
    }

    /** The densities `fit_mle` computes for pixel (i, j): a fresh
        `MLEstimator` fitted to the pixel's time pixel and evaluated at it. */
    static method MlePixel(frames: seq<Image>, exp: real -> real, i: int, j: int) returns (y: seq<real>)
      requires SameSize(frames) && |frames| >= 2 && IsExp(exp)
      requires 0 <= i < frames[0].width && 0 <= j < frames[0].height
      ensures y == MLE.FittedDensities(TimePixel(frames, i, j), exp)
    {
      var timePixel := LoadTimePixel(frames, i, j);
      var mlestimator := new MLE.MLEstimator();
      mlestimator.Fit(timePixel);
      y := mlestimator.EvaluateAll(timePixel, false, exp);
      assert y == MLE.FittedDensities(timePixel, exp);
    }

    /** `fit_kde`: for each pixel, run a fresh `KDEstimator`'s `fit_evaluate`
        on its time pixel and store the result. */
    method FitKde(frames: seq<Image>, pow: (real, real) -> real, exp: real -> real)
      requires Valid() && SameSize(frames) && N == |frames| >= 2 && IsExp(exp)
      requires WIDTH == frames[0].width && HEIGHT == frames[0].height
      modifies tensorDensity
      ensures KdeFilled(frames, pow, exp)
    {
      ghost var target := KdeTarget(frames, pow, exp);
      for i := 0 to WIDTH
        invariant FilledBefore(target, i, 0)
      {
        for j := 0 to HEIGHT
          invariant FilledBefore(target, i, j)
        {
          FitKdePixel(frames, pow, exp, i, j, target);
        }
      }
      forall a, b | 0 <= a < WIDTH && 0 <= b < HEIGHT
        ensures PixelDensities(a, b) == KDE.KdeDensities(TimePixel(frames, a, b), pow, exp)
      {
        assert PixelDensities(a, b) == target(a, b);
      }
    }

    /** The body of `fit_kde`'s loops for pixel (i, j): the pixel's densities
        become its kernel density estimate, and the pixels before it keep
        theirs. */
    method FitKdePixel(frames: seq<Image>, pow: (real, real) -> real, exp: real -> real, i: int, j: int, ghost target: (int, int) -> seq<real>)
      requires Valid() && SameSize(frames) && N == |frames| >= 2 && IsExp(exp)
      requires WIDTH == frames[0].width && HEIGHT == frames[0].height
      requires 0 <= i < WIDTH && 0 <= j < HEIGHT
      requires FilledBefore(target, i, j) && target(i, j) == KDE.KdeDensities(TimePixel(frames, i, j), pow, exp)
      modifies tensorDensity
      ensures FilledBefore(target, i, j + 1)
      ensures j + 1 == HEIGHT ==> FilledBefore(target, i + 1, 0)
    {
      var y := KdePixel(frames, pow, exp, i, j);
      StoreDensities(i, j, y, target);
    }

    /** The densities `fit_kde` computes for pixel (i, j): a fresh
        `KDEstimator`'s `fit_evaluate` on the pixel's time pixel. */
    static method KdePixel(frames: seq<Image>, pow: (real, real) -> real, exp: real -> real, i: int, j: int)
      returns (y: seq<real>)
      requires SameSize(frames) && |frames| >= 2 && IsExp(exp)
      requires 0 <= i < frames[0].width && 0 <= j < frames[0].height
      ensures y == KDE.KdeDensities(TimePixel(frames, i, j), pow, exp)
    {
      var timePixel := LoadTimePixel(frames, i, j);
      var kdestimator := new KDE.KDEstimator();
      y := kdestimator.FitEvaluate(timePixel, pow, exp);
    }

    /** `tensorDensity[i][j] = y`: the N densities of one pixel are replaced
        and every other pixel keeps its own. When `y` is what `target` gives
        pixel (i, j) and the pixels before it already hold theirs, the pixels
        up to and including (i, j) do. */
    method StoreDensities(i: int, j: int, y: seq<real>, ghost target: (int, int) -> seq<real>)
      requires Valid() && 0 <= i < WIDTH && 0 <= j < HEIGHT && |y| == N
      modifies tensorDensity
      ensures PixelDensities(i, j) == y
      ensures forall a, b :: 0 <= a < WIDTH && 0 <= b < HEIGHT && (a, b) != (i, j) ==>
        PixelDensities(a, b) == old(PixelDensities(a, b))
      ensures old(FilledBefore(target, i, j)) && y == target(i, j) ==>
        FilledBefore(target, i, j + 1) && (j + 1 == HEIGHT ==> FilledBefore(target, i + 1, 0))
    {
      for c := 0 to N
        invariant forall c' :: 0 <= c' < c ==> tensorDensity[i, j, c'] == y[c']
        invariant forall a, b, c' :: 0 <= a < WIDTH && 0 <= b < HEIGHT && 0 <= c' < N && (a, b) != (i, j) ==>
          tensorDensity[a, b, c'] == old(tensorDensity[a, b, c'])
      {
        tensorDensity[i, j, c] := y[c];
      }
      assert PixelDensities(i, j) == y;
      forall a, b | 0 <= a < WIDTH && 0 <= b < HEIGHT && (a, b) != (i, j)
        ensures PixelDensities(a, b) == old(PixelDensities(a, b))
      {
        assert PixelDensities(a, b) == old(PixelDensities(a, b));
      }
    }

    // ----- The flood fill -----

    /** `D` holds the densities of frame k, as a `WIDTH × HEIGHT` grid. */
    ghost predicate IsSlice(D: seq<seq<real>>, k: int)
      requires Valid() && 0 <= k < N
      reads this, tensorDensity
    {
      |D| == WIDTH && (forall a :: 0 <= a < WIDTH ==> |D[a]| == HEIGHT) &&
      forall a, b :: 0 <= a < WIDTH && 0 <= b < HEIGHT ==> D[a][b] == tensorDensity[a, b, k]
    }

    /** The densities of frame k. */
    ghost function Slice(k: int): (D: seq<seq<real>>)
      requires Valid() && 0 <= k < N
      reads this, tensorDensity
      ensures IsSlice(D, k)
    {
      var t := tensorDensity;
      seq(WIDTH, a requires 0 <= a < t.Length0 && 0 <= k < t.Length2 reads t =>
        seq(t.Length1, b requires 0 <= b < t.Length1 reads t => t[a, b, k]))
    }

    /** The grid of frame k's densities is unique: any `D` that holds them is `Slice(k)`. */
    lemma SliceUnique(D: seq<seq<real>>, k: int)
      requires Valid() && 0 <= k < N && IsSlice(D, k)
      ensures D == Slice(k)
    {
      var S := Slice(k);
      forall a | 0 <= a < WIDTH
        ensures D[a] == S[a]
      {
        assert forall b :: 0 <= b < HEIGHT ==> D[a][b] == S[a][b];
      }
    }

    /** `spread(image, k, i, j, s)`: mark (i, j) unless it is already marked,
        then recurse into each of its four neighbours that lies inside the
        image and has density at most `s`. Each of the four guarded calls is
        a call of `Visit`, given the bounds half of the source's guard. `D`
        is the densities of frame k; `M` and `M'` are the marked pixels
        before and after. It only marks pixels; it marks (i, j); it leaves
        the image untouched when (i, j) is already marked; every pixel it
        marks is reachable from (i, j) and has all its open neighbours marked.
        Each real call marks an unmarked pixel, so the recursion ends. */
    method Spread(img: array2<bool>, k: int, i: int, j: int, s: real, ghost D: seq<seq<real>>, ghost M: set<Cell>)
      returns (ghost M': set<Cell>)
      requires Valid() && 0 <= k < N && IsSlice(D, k)
      requires 0 <= i < WIDTH && 0 <= j < HEIGHT
      requires img.Length0 == WIDTH && img.Length1 == HEIGHT && Agrees(img, M)
      modifies img
      decreases Grid(img.Length0, img.Length1) - M, 0
      ensures Agrees(img, M')
      ensures M <= M' && (i, j) in M'
      ensures (i, j) in M ==> M' == M && unchanged(img)
      ensures forall c {:trigger Settled(D, M', (i, j), c, s)} :: c in M' - M ==> Settled(D, M', (i, j), c, s)
    {
      if !img[i, j] {
        assert (i, j) in Grid(img.Length0, img.Length1) - M;
        img[i, j] := true;
        M' := M + {(i, j)};
        assert Progress(D, M, M', (i, j), s);
        M' := Visit(img, k, (i, j), i - 1, j, i - 1 >= 0, s, D, M, M');
        ghost var M1 := M';
        M' := Visit(img, k, (i, j), i + 1, j, i + 1 < WIDTH, s, D, M, M');
        ghost var M2 := M';
        M' := Visit(img, k, (i, j), i, j - 1, j - 1 >= 0, s, D, M, M');
        ghost var M3 := M';
        M' := Visit(img, k, (i, j), i, j + 1, j + 1 < HEIGHT, s, D, M, M');
        DoneFromNeighbours(D, M1, M2, M3, M', (i, j), s);
        ProgressComplete(D, M, M', (i, j), s);
      } else {
        M' := M;
      }
    }

    /** One guarded call of `spread` on the neighbour (ni, nj) of `c0`: given
        whether the neighbour lies inside the image, it tests its density
        against `s` and recurses when both hold. `Ms` are the marks `spread`
        at `c0` started from; the progress of that call is kept, and an open
        neighbour ends up marked. */
    method Visit(img: array2<bool>, k: int, c0: Cell, ni: int, nj: int, inside: bool, s: real,
                 ghost D: seq<seq<real>>, ghost Ms: set<Cell>, ghost M: set<Cell>)
      returns (ghost M': set<Cell>)
      requires Valid() && 0 <= k < N && IsSlice(D, k)
      requires InGrid(D, c0) && Adjacent(c0, (ni, nj))
      requires inside <==> 0 <= ni < WIDTH && 0 <= nj < HEIGHT
      requires img.Length0 == WIDTH && img.Length1 == HEIGHT && Agrees(img, M)
      requires Progress(D, Ms, M, c0, s)
      modifies img
      decreases Grid(img.Length0, img.Length1) - Ms - {c0}, 1
      ensures Agrees(img, M')
      ensures M <= M' && Progress(D, Ms, M', c0, s)
      ensures Below(D, (ni, nj), s) ==> (ni, nj) in M'
    {
      if inside && tensorDensity[ni, nj, k] <= s {
        M' := Spread(img, k, ni, nj, s, D, M);
        ProgressStep(D, Ms, M, M', c0, (ni, nj), s);
      } else {
        M' := M;
      }
    }

    /** `evaluate(k, s, s2)`: a fresh, all-unmarked image, then `spread` with
        threshold `s2` from every pixel whose density in frame k is at most
        `s`. The marked pixels are exactly the mask of frame k. */
    method Evaluate(k: int, s: real, s2: real) returns (img: array2<bool>)
      requires Valid() && 0 <= k < N
      ensures fresh(img)
      ensures img.Length0 == WIDTH && img.Length1 == HEIGHT
      ensures forall a, b :: 0 <= a < WIDTH && 0 <= b < HEIGHT ==> (img[a, b] <==> InMask(Slice(k), s, s2, (a, b)))
    {
      ghost var D := Slice(k);
      img := new bool[WIDTH, HEIGHT]((_, _) => false);
      ghost var M: set<Cell> := {};
      for i := 0 to WIDTH
        invariant Agrees(img, M)
        invariant forall c {:trigger Sound(D, M, c, s, s2)} :: c in M ==> Sound(D, M, c, s, s2)
        invariant SeedsBefore(D, M, s, i, 0)
      {
        M := SpreadColumn(img, k, i, s, s2, D, M);
      }
      SeedsBeforeAll(D, M, s);
      ClosedSetIsMask(D, M, s, s2);
      SliceUnique(D, k);
    }

    /** The inner loop of `evaluate`: every pixel of column i, from the top, in turn. */
    method SpreadColumn(img: array2<bool>, k: int, i: int, s: real, s2: real,
                        ghost D: seq<seq<real>>, ghost M: set<Cell>)
      returns (ghost M': set<Cell>)
      requires Valid() && 0 <= k < N && IsSlice(D, k)
      requires 0 <= i < WIDTH
      requires img.Length0 == WIDTH && img.Length1 == HEIGHT && Agrees(img, M)
      requires forall c {:trigger Sound(D, M, c, s, s2)} :: c in M ==> Sound(D, M, c, s, s2)
      requires SeedsBefore(D, M, s, i, 0)
      modifies img
      ensures Agrees(img, M') && M <= M'
      ensures forall c {:trigger Sound(D, M', c, s, s2)} :: c in M' ==> Sound(D, M', c, s, s2)
      ensures SeedsBefore(D, M', s, i + 1, 0)
    {
      M' := M;
      for j := 0 to HEIGHT
        invariant Agrees(img, M') && M <= M'
        invariant forall c {:trigger Sound(D, M', c, s, s2)} :: c in M' ==> Sound(D, M', c, s, s2)
        invariant SeedsBefore(D, M', s, i, j)
        invariant j == HEIGHT ==> SeedsBefore(D, M', s, i + 1, 0)
      {
        M' := SpreadFromSeed(img, k, i, j, s, s2, D, M');
      }
    }

    /** The body of `evaluate`'s loops at pixel (i, j): when its density is at
        most `s` it is a seed, and `spread` with threshold `s2` runs from it.
        Every marked pixel stays done and in the mask, and a seed ends up
        marked. */
    method SpreadFromSeed(img: array2<bool>, k: int, i: int, j: int, s: real, s2: real,
                          ghost D: seq<seq<real>>, ghost M: set<Cell>)
      returns (ghost M': set<Cell>)
      requires Valid() && 0 <= k < N && IsSlice(D, k)
      requires 0 <= i < WIDTH && 0 <= j < HEIGHT
      requires img.Length0 == WIDTH && img.Length1 == HEIGHT && Agrees(img, M)
      requires forall c {:trigger Sound(D, M, c, s, s2)} :: c in M ==> Sound(D, M, c, s, s2)
      requires SeedsBefore(D, M, s, i, j)
      modifies img
      ensures Agrees(img, M') && M <= M'
      ensures forall c {:trigger Sound(D, M', c, s, s2)} :: c in M' ==> Sound(D, M', c, s, s2)
      ensures Below(D, (i, j), s) ==> (i, j) in M'
      ensures SeedsBefore(D, M', s, i, j + 1)
      ensures j + 1 == HEIGHT ==> SeedsBefore(D, M', s, i + 1, 0)
    {
      if tensorDensity[i, j, k] <= s {
        M' := Spread(img, k, i, j, s2, D, M);
        SeedStep(D, M, M', (i, j), s, s2);
      } else {
        M' := M;
      }
      SeedsBeforeStep(D, M, M', s, i, j);
    }
  }

  /** The ghost set `M` is exactly the set of marked (red) pixels of `img`. */
  ghost predicate Agrees(img: array2<bool>, M: set<Cell>)
    reads img
  {
    forall a, b :: 0 <= a < img.Length0 && 0 <= b < img.Length1 ==> (img[a, b] <==> (a, b) in M)
  }
}

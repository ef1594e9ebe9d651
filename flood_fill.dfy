/** The mask `DPEstimator::evaluate` draws, stated over the densities of one
    frame: a `width × height` grid `D` of reals, `D[i][j]` the density of
    pixel (i, j). A seed is a pixel of density at most `s`; the fill moves
    between 4-adjacent pixels and enters only pixels of density at most `s2`. */
module FloodFill {

  /** A pixel position (i, j). */
  type Cell = (int, int)

  /** 4-adjacency: the two cells differ by one step along exactly one axis. */
  predicate Adjacent(c: Cell, d: Cell) {
    (d.0 == c.0 - 1 && d.1 == c.1) || (d.0 == c.0 + 1 && d.1 == c.1) ||
    (d.0 == c.0 && d.1 == c.1 - 1) || (d.0 == c.0 && d.1 == c.1 + 1)
  }

  /** Diagonal neighbours are never adjacent. */
  lemma DiagonalNotAdjacent(c: Cell, d: Cell)
    requires d.0 != c.0 && d.1 != c.1
    ensures !Adjacent(c, d)
  {
  }

  /** All cells of a `w × h` grid. */
  ghost function Grid(w: int, h: int): set<Cell> {
    set a, b | 0 <= a < w && 0 <= b < h :: (a, b)
  }

  predicate InGrid(D: seq<seq<real>>, c: Cell) {
    0 <= c.0 < |D| && 0 <= c.1 < |D[c.0]|
  }

  /** A cell of density at most `s`. */
  predicate Below(D: seq<seq<real>>, c: Cell, s: real) {
    InGrid(D, c) && D[c.0][c.1] <= s
  }

  /** A 4-connected path inside the grid whose every cell after the first has
      density at most `s2`. */
  predicate IsPath(D: seq<seq<real>>, p: seq<Cell>, s2: real) {
    |p| >= 1 && InGrid(D, p[0]) &&
    (forall t :: 0 <= t < |p| - 1 ==> Adjacent(p[t], p[t + 1])) &&
    (forall t :: 1 <= t < |p| ==> Below(D, p[t], s2))
  }

  /** A fill started at `a` with threshold `s2` can reach `c`. */
  ghost predicate ReachesFrom(D: seq<seq<real>>, s2: real, a: Cell, c: Cell) {
    exists p: seq<Cell> :: IsPath(D, p, s2) && p[0] == a && p[|p| - 1] == c
  }

  /** The mask: the cells reachable from some seed of density at most `s`. */
  ghost predicate InMask(D: seq<seq<real>>, s: real, s2: real, c: Cell) {
    exists p: seq<Cell> :: IsPath(D, p, s2) && Below(D, p[0], s) && p[|p| - 1] == c
  }

  /** Every open 4-neighbour of `c` is in `M`: the four tests of `spread`. */
  predicate Done(D: seq<seq<real>>, M: set<Cell>, c: Cell, s2: real) {
    (Below(D, (c.0 - 1, c.1), s2) ==> (c.0 - 1, c.1) in M) &&
    (Below(D, (c.0 + 1, c.1), s2) ==> (c.0 + 1, c.1) in M) &&
    (Below(D, (c.0, c.1 - 1), s2) ==> (c.0, c.1 - 1) in M) &&
    (Below(D, (c.0, c.1 + 1), s2) ==> (c.0, c.1 + 1) in M)
  }

  /** `c` is done in `M` and reachable from `a`: what a fill started at `a`
      guarantees of each cell it marks. */
  ghost predicate Settled(D: seq<seq<real>>, M: set<Cell>, a: Cell, c: Cell, s2: real) {
    Done(D, M, c, s2) && ReachesFrom(D, s2, a, c)
  }

  /** `c` is done in `M` and in the mask: what `evaluate` guarantees of each
      cell it marks. */
  ghost predicate Sound(D: seq<seq<real>>, M: set<Cell>, c: Cell, s: real, s2: real) {
    Done(D, M, c, s2) && InMask(D, s, s2, c)
  }

  /** Every cell is reachable from itself. */
  lemma ReachSelf(D: seq<seq<real>>, s2: real, c: Cell)
    requires InGrid(D, c)
    ensures ReachesFrom(D, s2, c, c)
  {
    assert IsPath(D, [c], s2);
  }

  /** A step to an open neighbour extends reachability backwards. */
  lemma ReachPrepend(D: seq<seq<real>>, s2: real, a: Cell, n: Cell, c: Cell)
    requires InGrid(D, a) && Adjacent(a, n) && Below(D, n, s2)
    requires ReachesFrom(D, s2, n, c)
    ensures ReachesFrom(D, s2, a, c)
  {
    var p: seq<Cell> :| IsPath(D, p, s2) && p[0] == n && p[|p| - 1] == c;
    var q := [a] + p;
    assert forall t :: 1 <= t < |q| ==> q[t] == p[t - 1];
    assert IsPath(D, q, s2);
  }

  /** Marking more cells keeps a done cell done. */
  lemma DoneMonotone(D: seq<seq<real>>, M: set<Cell>, M': set<Cell>, c: Cell, s2: real)
    requires Done(D, M, c, s2) && M <= M'
    ensures Done(D, M', c, s2)
  {
  }

  /** What a fill started at `c0` guarantees part-way through its four
      recursive calls, `M0` being the marks it started from: `c0` is marked,
      and every other cell it has marked is done and reachable from `c0`. */
  ghost predicate Progress(D: seq<seq<real>>, M0: set<Cell>, M: set<Cell>, c0: Cell, s2: real) {
    c0 in M && M0 <= M &&
    forall c {:trigger Settled(D, M, c0, c, s2)} :: c in M - M0 && c != c0 ==> Settled(D, M, c0, c, s2)
  }

  /** One recursive call of the fill, on the open neighbour `n`, keeps the progress. */
  lemma ProgressStep(D: seq<seq<real>>, M0: set<Cell>, Mb: set<Cell>, Ma: set<Cell>, c0: Cell, n: Cell, s2: real)
    requires InGrid(D, c0) && Adjacent(c0, n) && Below(D, n, s2)
    requires Progress(D, M0, Mb, c0, s2)
    requires Mb <= Ma
    requires forall c {:trigger Settled(D, Ma, n, c, s2)} :: c in Ma - Mb ==> Settled(D, Ma, n, c, s2)
    ensures Progress(D, M0, Ma, c0, s2)
  {
    forall c | c in Ma - M0 && c != c0
      ensures Settled(D, Ma, c0, c, s2)
    {
      if c in Ma - Mb {
        assert Settled(D, Ma, n, c, s2);
        ReachPrepend(D, s2, c0, n, c);
      } else {
        assert Settled(D, Mb, c0, c, s2);
        DoneMonotone(D, Mb, Ma, c, s2);
      }
    }
  }

  /** The four neighbour tests, each met by the marks after its own recursive
      call, make the cell done once the marks only grew. */
  lemma DoneFromNeighbours(D: seq<seq<real>>, M1: set<Cell>, M2: set<Cell>, M3: set<Cell>, M4: set<Cell>, c: Cell, s2: real)
    requires M1 <= M2 <= M3 <= M4
    requires Below(D, (c.0 - 1, c.1), s2) ==> (c.0 - 1, c.1) in M1
    requires Below(D, (c.0 + 1, c.1), s2) ==> (c.0 + 1, c.1) in M2
    requires Below(D, (c.0, c.1 - 1), s2) ==> (c.0, c.1 - 1) in M3
    requires Below(D, (c.0, c.1 + 1), s2) ==> (c.0, c.1 + 1) in M4
    ensures Done(D, M4, c, s2)
  {
  }

  /** Once `c0` itself is done, the progress covers every cell marked since `M0`. */
  lemma ProgressComplete(D: seq<seq<real>>, M0: set<Cell>, M: set<Cell>, c0: Cell, s2: real)
    requires InGrid(D, c0)
    requires Progress(D, M0, M, c0, s2) && Done(D, M, c0, s2)
    ensures forall c {:trigger Settled(D, M, c0, c, s2)} :: c in M - M0 ==> Settled(D, M, c0, c, s2)
  {
    forall c | c in M - M0
      ensures Settled(D, M, c0, c, s2)
    {
      if c == c0 {
        ReachSelf(D, s2, c0);
      } else {
        assert Settled(D, M, c0, c, s2);
      }
    }
  }

  /** Along a path that starts in a closed set (one whose cells are all done),
      every cell stays in the set. */
  lemma {:induction false} PathStaysMarked(D: seq<seq<real>>, p: seq<Cell>, M: set<Cell>, s2: real)
    requires IsPath(D, p, s2) && p[0] in M
    requires forall c {:trigger Done(D, M, c, s2)} :: c in M ==> Done(D, M, c, s2)
    ensures p[|p| - 1] in M
    decreases |p|
  {
    if |p| > 1 {
      var q := p[..|p| - 1];
      assert forall t :: 0 <= t < |q| ==> q[t] == p[t];
      assert IsPath(D, q, s2);
      PathStaysMarked(D, q, M, s2);
      assert Done(D, M, p[|p| - 2], s2);
      assert Adjacent(p[|p| - 2], p[|p| - 1]) && Below(D, p[|p| - 1], s2);
    }
  }

  /** A closed set that holds every seed and only mask cells is the mask. */
  lemma ClosedSetIsMask(D: seq<seq<real>>, M: set<Cell>, s: real, s2: real)
    requires forall c {:trigger Sound(D, M, c, s, s2)} :: c in M ==> Sound(D, M, c, s, s2)
    requires forall c :: Below(D, c, s) ==> c in M
    ensures forall c :: InMask(D, s, s2, c) <==> c in M
  {
    forall c | c in M
      ensures Done(D, M, c, s2) && InMask(D, s, s2, c)
    {
      assert Sound(D, M, c, s, s2);
    }
    forall c | InMask(D, s, s2, c)
      ensures c in M
    {
      var p: seq<Cell> :| IsPath(D, p, s2) && Below(D, p[0], s) && p[|p| - 1] == c;
      PathStaysMarked(D, p, M, s2);
    }
  }

  /** A fill from a seed keeps the invariant of `evaluate`'s loop: every
      marked cell is done and in the mask. */
  lemma SeedStep(D: seq<seq<real>>, Mb: set<Cell>, Ma: set<Cell>, seed: Cell, s: real, s2: real)
    requires Below(D, seed, s)
    requires forall c {:trigger Sound(D, Mb, c, s, s2)} :: c in Mb ==> Sound(D, Mb, c, s, s2)
    requires Mb <= Ma
    requires forall c {:trigger Settled(D, Ma, seed, c, s2)} :: c in Ma - Mb ==> Settled(D, Ma, seed, c, s2)
    ensures forall c {:trigger Sound(D, Ma, c, s, s2)} :: c in Ma ==> Sound(D, Ma, c, s, s2)
  {
    forall c | c in Ma
      ensures Sound(D, Ma, c, s, s2)
    {
      if c in Ma - Mb {
        assert Settled(D, Ma, seed, c, s2);
        var p: seq<Cell> :| IsPath(D, p, s2) && p[0] == seed && p[|p| - 1] == c;
        assert IsPath(D, p, s2) && Below(D, p[0], s) && p[|p| - 1] == c;
      } else {
        assert Sound(D, Mb, c, s, s2);
        DoneMonotone(D, Mb, Ma, c, s2);
      }
    }
  }

  /** Every seed before (i, j) in the scan order of `evaluate`'s loops
      (column by column, each from the top) is marked. */
  ghost predicate SeedsBefore(D: seq<seq<real>>, M: set<Cell>, s: real, i: int, j: int) {
    forall a, b :: (a < i || (a == i && b < j)) && Below(D, (a, b), s) ==> (a, b) in M
  }

  /** Visiting (i, j) without unmarking anything, and marking it when it is a
      seed, moves the scan one pixel on; past the last pixel of a column it
      moves on to the top of the next one. */
  lemma SeedsBeforeStep(D: seq<seq<real>>, Mb: set<Cell>, Ma: set<Cell>, s: real, i: int, j: int)
    requires 0 <= i < |D| && 0 <= j < |D[i]|
    requires SeedsBefore(D, Mb, s, i, j) && Mb <= Ma
    requires Below(D, (i, j), s) ==> (i, j) in Ma
    ensures SeedsBefore(D, Ma, s, i, j + 1)
    ensures j + 1 == |D[i]| ==> SeedsBefore(D, Ma, s, i + 1, 0)
  {
    forall a, b | (a < i || (a == i && b < j + 1)) && Below(D, (a, b), s)
      ensures (a, b) in Ma
    {
      if a == i && b == j {
      } else {
        assert (a, b) in Mb;
      }
    }
  }

  /** Once the scan has passed every column, every seed is marked. */
  lemma SeedsBeforeAll(D: seq<seq<real>>, M: set<Cell>, s: real)
    requires SeedsBefore(D, M, s, |D|, 0)
    ensures forall c :: Below(D, c, s) ==> c in M
  {
    forall c | Below(D, c, s)
      ensures c in M
    {
      assert c.0 < |D|;
    }
  }

  /** Raising either threshold can only grow the mask. */
  lemma MaskMonotone(D: seq<seq<real>>, s: real, s2: real, t: real, t2: real, c: Cell)
    requires s <= t && s2 <= t2
    requires InMask(D, s, s2, c)
    ensures InMask(D, t, t2, c)
  {
    var p: seq<Cell> :| IsPath(D, p, s2) && Below(D, p[0], s) && p[|p| - 1] == c;
    assert IsPath(D, p, t2) && Below(D, p[0], t);
  }

  /** Every seed is in the mask. */
  lemma SeedInMask(D: seq<seq<real>>, s: real, s2: real, c: Cell)
    requires Below(D, c, s)
    ensures InMask(D, s, s2, c)
  {
    assert IsPath(D, [c], s2);
  }

  /** Every mask cell is inside the grid. */
  lemma MaskInGrid(D: seq<seq<real>>, s: real, s2: real, c: Cell)
    requires InMask(D, s, s2, c)
    ensures InGrid(D, c)
  {
    var p: seq<Cell> :| IsPath(D, p, s2) && Below(D, p[0], s) && p[|p| - 1] == c;
    if |p| > 1 {
      assert Below(D, p[|p| - 1], s2);
    }
  }
}

/**
 * The alignment engine of dtw.cs: the frame distance and the two
 * `ComputeDTW` overloads.
 *
 * The table the C# code fills with two rolling rows is given here cell by
 * cell: `Cell(i, j)` is the seed row for `i = 0`, and for a later row it is
 * the frame cost plus `MinTransition` inside the band of row `i` and
 * +infinity outside it. Width -1 makes the band every column `1..M`, which
 * is the unbanded overload. The methods run the rolling-buffer loops of the
 * source and are proved to return the last cell of the last row, rounded.
 */
module Dtw {
  import opened Types
  import opened Costs

  /** `Math.Sqrt`, a library call this model cannot see: it is a parameter. */
  type SquareRoot = real -> real

  /**
   * The two properties of `Math.Sqrt` the lemmas rely on: the root of 0 is 0
   * and the root of a non-negative number is non-negative.
   */
  ghost predicate IsSquareRoot(sqrt: SquareRoot)
  {
    sqrt(0.0) == 0.0 && forall v :: 0.0 <= v ==> 0.0 <= sqrt(v)
  }

  /** The largest value of a C# `short`, the type of the banded overload's counters. */
  const ShortMax: int := 32767

  /** The banded overload's `short` counters reach every index of the sequence without wrapping. */
  predicate FitsShort(s: Option<Sequence>)
  {
    Usable(s) ==> |FramesOf(s)| < ShortMax
  }

  /** Sum of the squared differences of two equally long coefficient vectors. */
  function SumSquares(a: seq<real>, b: seq<real>): (s: real)
    requires |a| == |b|
    ensures s >= 0.0
  {
    if |a| == 0 then 0.0
    else
      var d := a[|a| - 1] - b[|b| - 1];
      SumSquares(a[..|a| - 1], b[..|b| - 1]) + d * d
  }

  /** Euclidean distance over coefficients 0..12. */
  function FrameDistance(sqrt: SquareRoot, a: Frame, b: Frame): real
  {
    sqrt(SumSquares(a[..FeatureCount], b[..FeatureCount]))
  }

  /** `EuclideanDistance`: the accumulating loop over the 13 coefficients. */
  method EuclideanDistance(sqrt: SquareRoot, frame1: Frame, frame2: Frame) returns (d: real)
    ensures d == FrameDistance(sqrt, frame1, frame2)
  {
    var sum := 0.0;
    for k := 0 to FeatureCount
      invariant sum == SumSquares(frame1[..k], frame2[..k])
    {
      var diff := frame1[k] - frame2[k];
      assert frame1[..k + 1][..k] == frame1[..k] && frame2[..k + 1][..k] == frame2[..k];
      sum := sum + diff * diff;
    }
    d := sqrt(sum);
  }

  /** `cost(i, j)`, 1-based: the distance of input frame `i` to template frame `j`. */
  function LocalCost(sqrt: SquareRoot, x: seq<Frame>, y: seq<Frame>, i: nat, j: nat): real
    requires 1 <= i <= |x| && 1 <= j <= |y|
  {
    FrameDistance(sqrt, x[i - 1], y[j - 1])
  }

  /** The seed row: `0` at column 0, `cost(1, 1)` at column 1, +infinity elsewhere. */
  function Seed(sqrt: SquareRoot, x: seq<Frame>, y: seq<Frame>, j: nat): (r: Cost)
    requires |x| > 0 && |y| > 0
    ensures r.Fin? <==> j <= 1
    ensures j == 0 ==> r == Fin(0.0)
  {
    if j == 0 then Fin(0.0)
    else if j == 1 then Fin(LocalCost(sqrt, x, y, 1, 1))
    else Inf
  }

  /** The width the banded overload works with: -1 stays the "no band" sentinel, anything else is widened. */
  function EffectiveWidth(w: int, n: nat, m: nat): (w': int)
    ensures w == -1 ==> w' == -1
    ensures w != -1 ==> w' >= w && w' >= 0 && w' >= 2 * (n - m) && w' >= 2 * (m - n)
    ensures w != -1 && w >= 2 * (n - m) && w >= 2 * (m - n) ==> w' == w
  {
    if w == -1 then -1
    else
      var gap := if n >= m then n - m else m - n;
      if w >= 2 * gap then w else 2 * gap
  }

  /** `jStart` of row `i`: the larger of 1 and `i - w'/2`, or 1 without a band. */
  function BandStart(w': int, i: int): (s: int)
    ensures s >= 1 && (w' != -1 ==> s >= i - w' / 2)
    ensures s == 1 || s == i - w' / 2
    ensures w' == -1 ==> s == 1
  {
    if w' == -1 then 1
    else if i - w' / 2 >= 1 then i - w' / 2 else 1
  }

  /** `jEnd` of row `i`: the smaller of `m` and `i + w'/2`, or `m` without a band. */
  function BandEnd(w': int, i: int, m: int): (e: int)
    ensures e <= m && (w' != -1 ==> e <= i + w' / 2)
    ensures e == m || e == i + w' / 2
    ensures w' == -1 ==> e == m
  {
    if w' == -1 then m
    else if i + w' / 2 <= m then i + w' / 2 else m
  }

  /** Whether row `i` (from 1) computes column `j`; with `w' == -1` every column `1..m` is computed. */
  predicate InBand(w': int, i: int, m: int, j: int)
  {
    1 <= j && BandStart(w', i) <= j <= BandEnd(w', i, m)
  }

  /**
   * Cell `(i, j)` of the table for the (already widened) width `w'`: row 0 is
   * the seed row; in a later row a cell of the band is its frame cost plus the
   * cheapest predecessor, and every other cell is +infinity.
   */
  function Cell(sqrt: SquareRoot, x: seq<Frame>, y: seq<Frame>, w': int, i: nat, j: nat): Cost
    requires |x| > 0 && |y| > 0 && i <= |x| && j <= |y|
    decreases i, 1
  {
    if i == 0 then Seed(sqrt, x, y, j)
    else if InBand(w', i, |y|, j) then Add(Fin(LocalCost(sqrt, x, y, i, j)), MinTransition(sqrt, x, y, w', i, j))
    else Inf
  }

  /** `minTrans` of cell `(i, j)`: the cheapest of row `i - 1` at `j`, `j - 1` and (from `j = 2`) `j - 2`. */
  function MinTransition(sqrt: SquareRoot, x: seq<Frame>, y: seq<Frame>, w': int, i: nat, j: nat): Cost
    requires |x| > 0 && |y| > 0 && 1 <= i <= |x| && 1 <= j <= |y|
    decreases i, 0
  {
    var m := Min(Cell(sqrt, x, y, w', i - 1, j), Cell(sqrt, x, y, w', i - 1, j - 1));
    if j >= 2 then Min(m, Cell(sqrt, x, y, w', i - 1, j - 2)) else m
  }

  /** `minTrans` is at most each of the predecessors it reads, and is one of them. */
  lemma MinTransitionIsCheapest(sqrt: SquareRoot, x: seq<Frame>, y: seq<Frame>, w': int, i: nat, j: nat)
    requires |x| > 0 && |y| > 0 && 1 <= i <= |x| && 1 <= j <= |y|
    ensures var r, a, b := MinTransition(sqrt, x, y, w', i, j), Cell(sqrt, x, y, w', i - 1, j), Cell(sqrt, x, y, w', i - 1, j - 1);
      && Le(r, a) && Le(r, b) && (j >= 2 ==> Le(r, Cell(sqrt, x, y, w', i - 1, j - 2)))
      && (r == a || r == b || (j >= 2 && r == Cell(sqrt, x, y, w', i - 1, j - 2)))
  {
  }

  /** What `ComputeDTW(input, template)` returns or throws: every row computes every column. */
  function Unbanded(sqrt: SquareRoot, input: Option<Sequence>, template: Option<Sequence>): (r: Result<Cost>)
    ensures r.Failure? <==> !Usable(input) || !Usable(template)
    ensures r.Failure? ==> r.error == ArgumentException
  {
    if !Usable(input) || !Usable(template) then Failure(ArgumentException)
    else
      var x, y := FramesOf(input), FramesOf(template);
      Success(Round(Cell(sqrt, x, y, -1, |x|, |y|)))
  }

  /** What `ComputeDTW(input, template, W)` returns or throws. */
  function Banded(sqrt: SquareRoot, input: Option<Sequence>, template: Option<Sequence>, w: int): (r: Result<Cost>)
    ensures r.Failure? <==> !Usable(input) || !Usable(template)
    ensures r.Failure? ==> r.error == ArgumentException
  {
    if !Usable(input) || !Usable(template) then Failure(ArgumentException)
    else
      var x, y := FramesOf(input), FramesOf(template);
      Success(Round(Cell(sqrt, x, y, EffectiveWidth(w, |x|, |y|), |x|, |y|)))
  }

  /** The buffer holds row `i` of the table for width `w'`. */
  ghost predicate HoldsRow(a: array<Cost>, sqrt: SquareRoot, x: seq<Frame>, y: seq<Frame>, w': int, i: nat)
    requires |x| > 0 && |y| > 0 && i <= |x|
    reads a
  {
    a.Length == |y| + 1 && forall j :: 0 <= j <= |y| ==> a[j] == Cell(sqrt, x, y, w', i, j)
  }

  /** The two buffers, both +infinity, then the seed written into `prev`. */
  method NewBuffers(sqrt: SquareRoot, x: seq<Frame>, y: seq<Frame>) returns (prev: array<Cost>, curr: array<Cost>)
    requires |x| > 0 && |y| > 0
    ensures fresh(prev) && fresh(curr) && prev != curr
    ensures prev.Length == |y| + 1 && forall j :: 0 <= j <= |y| ==> prev[j] == Seed(sqrt, x, y, j)
    ensures curr.Length == |y| + 1 && forall j :: 0 <= j <= |y| ==> curr[j] == Inf
  {
    var m := |y|;
    prev := new Cost[m + 1];
    curr := new Cost[m + 1];
    for j := 0 to m + 1
      invariant forall k :: 0 <= k < j ==> prev[k] == Inf && curr[k] == Inf
    {
      prev[j] := Inf;
      curr[j] := Inf;
    }
    prev[0] := Fin(0.0);
    if m >= 1 {
      var c := EuclideanDistance(sqrt, x[0], y[0]);
      prev[1] := Fin(c);
    }
  }

  /** Sets every cell of the row buffer back to +infinity. */
  method ResetRow(curr: array<Cost>)
    modifies curr
    ensures forall k :: 0 <= k < curr.Length ==> curr[k] == Inf
  {
    for j := 0 to curr.Length
      invariant forall k :: 0 <= k < j ==> curr[k] == Inf
    {
      curr[j] := Inf;
    }
  }

  /** Fills the band `lo..hi` of row `i` into the reset buffer `curr`, reading row `i - 1` from `prev`. */
  method FillRow(sqrt: SquareRoot, x: seq<Frame>, y: seq<Frame>, w': int, i: nat, lo: int, hi: int,
                 prev: array<Cost>, curr: array<Cost>)
    requires |y| > 0 && 1 <= i <= |x| && lo == BandStart(w', i) && hi == BandEnd(w', i, |y|)
    requires HoldsRow(prev, sqrt, x, y, w', i - 1) && curr.Length == |y| + 1 && prev != curr
    requires forall k :: 0 <= k < curr.Length ==> curr[k] == Inf
    modifies curr
    ensures HoldsRow(curr, sqrt, x, y, w', i)
  {
    var j := lo;
    while j <= hi
      invariant lo <= j && (lo <= hi + 1 ==> j <= hi + 1)
      invariant forall k :: 0 <= k < curr.Length ==> curr[k] == (if lo <= k < j then Cell(sqrt, x, y, w', i, k) else Inf)
    {
      var cost := EuclideanDistance(sqrt, x[i - 1], y[j - 1]);
      var minTrans := prev[j];
      if j >= 1 {
        minTrans := Min(minTrans, prev[j - 1]);
      }
      if j >= 2 {
        minTrans := Min(minTrans, prev[j - 2]);
      }
      curr[j] := Add(Fin(cost), minTrans);
      j := j + 1;
    }
  }

  /** `ComputeDTW(input, template)`: the rolling-buffer evaluation of the unbanded table. */
  method ComputeDtw(sqrt: SquareRoot, input: Option<Sequence>, template: Option<Sequence>) returns (r: Result<Cost>)
    ensures r == Unbanded(sqrt, input, template)
  {
    if !Usable(input) || !Usable(template) {
      return Failure(ArgumentException);
    }
    var x, y := FramesOf(input), FramesOf(template);
    var n, m := |x|, |y|;
    var prev, curr := NewBuffers(sqrt, x, y);
    var i := 1;
    while i <= n
      invariant 1 <= i <= n + 1
      invariant fresh(prev) && fresh(curr) && prev != curr && curr.Length == m + 1
      invariant HoldsRow(prev, sqrt, x, y, -1, i - 1)
    {
      ResetRow(curr);
      FillRow(sqrt, x, y, -1, i, 1, m, prev, curr);
      prev, curr := curr, prev;
      i := i + 1;
    }
    return Success(Round(prev[m]));
  }

  /** `ComputeDTW(input, template, W)`: the rolling-buffer evaluation restricted to the band. */
  method ComputeDtwBanded(sqrt: SquareRoot, input: Option<Sequence>, template: Option<Sequence>, w: int)
    returns (r: Result<Cost>)
    requires FitsShort(input) && FitsShort(template)
    ensures r == Banded(sqrt, input, template, w)
  {
    if !Usable(input) || !Usable(template) {
      return Failure(ArgumentException);
    }
    var x, y := FramesOf(input), FramesOf(template);
    var n, m := |x|, |y|;
    var width := EffectiveWidth(w, n, m);
    var prev, curr := NewBuffers(sqrt, x, y);
    var i := 1;
    while i <= n
      invariant 1 <= i <= n + 1
      invariant fresh(prev) && fresh(curr) && prev != curr && curr.Length == m + 1
      invariant HoldsRow(prev, sqrt, x, y, width, i - 1)
    {
      var jStart, jEnd := BandStart(width, i), BandEnd(width, i, m);
      ResetRow(curr);
      FillRow(sqrt, x, y, width, i, jStart, jEnd, prev, curr);
      prev, curr := curr, prev;
      i := i + 1;
    }
    return Success(Round(prev[m]));
  }
}

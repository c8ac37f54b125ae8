/**
 * Properties of the alignment engine of dtw.cs: the frame distance, the
 * shape of the table the rolling buffers compute, what the band does to it,
 * and what the two `ComputeDTW` overloads return.
 */
module DtwProperties {
  import opened Types
  import opened Costs
  import opened Dtw

  // ----- the frame distance -----

  /** A vector has no squared difference from itself. */
  lemma {:induction false} SumSquaresOfEqual(a: seq<real>)
    ensures SumSquares(a, a) == 0.0
  {
    if |a| > 0 {
      SumSquaresOfEqual(a[..|a| - 1]);
    }
  }

  /** The frame distance is never negative. */
  lemma FrameDistanceNonNegative(sqrt: SquareRoot, a: Frame, b: Frame)
    requires IsSquareRoot(sqrt)
    ensures FrameDistance(sqrt, a, b) >= 0.0
  {
  }

  /** Frames that agree on the 13 coefficients are at distance zero. */
  lemma IdenticalFramesAtZeroDistance(sqrt: SquareRoot, a: Frame, b: Frame)
    requires IsSquareRoot(sqrt) && a[..FeatureCount] == b[..FeatureCount]
    ensures FrameDistance(sqrt, a, b) == 0.0
  {
    SumSquaresOfEqual(a[..FeatureCount]);
  }

  /** The distance reads coefficients 0..12 only: coefficients past them never change it. */
  lemma FrameDistanceReadsFirst13(sqrt: SquareRoot, a: Frame, b: Frame, a': Frame, b': Frame)
    requires a[..FeatureCount] == a'[..FeatureCount] && b[..FeatureCount] == b'[..FeatureCount]
    ensures FrameDistance(sqrt, a, b) == FrameDistance(sqrt, a', b')
  {
  }

  // ----- the shape of the table -----

  /** Row 1 as the seed row makes it: the first input frame may end at template frame 1, 2 or 3. */
  lemma FirstRowAsWritten(sqrt: SquareRoot, x: seq<Frame>, y: seq<Frame>, w': int)
    requires IsSquareRoot(sqrt) && |x| > 0 && |y| >= 3 && InBand(w', 1, |y|, 3)
    ensures Cell(sqrt, x, y, w', 1, 0) == Inf
    ensures Cell(sqrt, x, y, w', 1, 1) == Fin(LocalCost(sqrt, x, y, 1, 1))
    ensures Cell(sqrt, x, y, w', 1, 2) == Fin(LocalCost(sqrt, x, y, 1, 2))
    ensures Cell(sqrt, x, y, w', 1, 3) == Fin(LocalCost(sqrt, x, y, 1, 3) + LocalCost(sqrt, x, y, 1, 1))
    ensures forall j :: 4 <= j <= |y| ==> Cell(sqrt, x, y, w', 1, j) == Inf
  {
    FrameDistanceNonNegative(sqrt, x[0], y[0]);
    var c11 := LocalCost(sqrt, x, y, 1, 1);
    assert Cell(sqrt, x, y, w', 0, 0) == Fin(0.0) && Cell(sqrt, x, y, w', 0, 1) == Fin(c11);
    assert MinTransition(sqrt, x, y, w', 1, 1) == Fin(0.0);
    assert MinTransition(sqrt, x, y, w', 1, 2) == Fin(0.0);
    assert MinTransition(sqrt, x, y, w', 1, 3) == Fin(c11);
    forall j | 4 <= j <= |y|
      ensures Cell(sqrt, x, y, w', 1, j) == Inf
    {
      if InBand(w', 1, |y|, j) {
        assert MinTransition(sqrt, x, y, w', 1, j) == Inf;
      }
    }
  }

  /** From row 1 on, column 0 and every column outside `[jStart, jEnd]` is +infinity. */
  lemma OutsideBandUnreachable(sqrt: SquareRoot, x: seq<Frame>, y: seq<Frame>, w': int, i: nat, j: nat)
    requires |x| > 0 && |y| > 0 && 1 <= i <= |x| && j <= |y|
    requires j == 0 || j < BandStart(w', i) || j > BandEnd(w', i, |y|)
    ensures Cell(sqrt, x, y, w', i, j) == Inf
  {
  }

  /** Every cell is +infinity or a non-negative finite cost. */
  lemma {:induction false} CellNonNegative(sqrt: SquareRoot, x: seq<Frame>, y: seq<Frame>, w': int, i: nat, j: nat)
    requires IsSquareRoot(sqrt) && |x| > 0 && |y| > 0 && i <= |x| && j <= |y|
    ensures NonNegative(Cell(sqrt, x, y, w', i, j))
  {
    if i > 0 && InBand(w', i, |y|, j) {
      CellNonNegative(sqrt, x, y, w', i - 1, j);
      CellNonNegative(sqrt, x, y, w', i - 1, j - 1);
      if j >= 2 {
        CellNonNegative(sqrt, x, y, w', i - 1, j - 2);
      }
    }
  }

  /** Pruning never lowers a cell: each banded cell is at least the unbanded one. */
  lemma {:induction false} CellAboveUnbanded(sqrt: SquareRoot, x: seq<Frame>, y: seq<Frame>, w': int, i: nat, j: nat)
    requires |x| > 0 && |y| > 0 && i <= |x| && j <= |y|
    ensures Le(Cell(sqrt, x, y, -1, i, j), Cell(sqrt, x, y, w', i, j))
  {
    if i > 0 && InBand(w', i, |y|, j) {
      CellAboveUnbanded(sqrt, x, y, w', i - 1, j);
      CellAboveUnbanded(sqrt, x, y, w', i - 1, j - 1);
      if j >= 2 {
        CellAboveUnbanded(sqrt, x, y, w', i - 1, j - 2);
      }
      assert InBand(-1, i, |y|, j);
      var banded := MinTransition(sqrt, x, y, w', i, j);
      assert Le(MinTransition(sqrt, x, y, -1, i, j), banded);
    }
  }

  /** The diagonal cell `(i, i)` of a square table lies in the band of row `i`. */
  lemma DiagonalInBand(w': int, i: int, m: int)
    requires 1 <= i <= m && (w' == -1 || w' >= 0)
    ensures InBand(w', i, m, i)
  {
  }

  /** Along the diagonal of a sequence aligned with itself every cell is zero, band or no band. */
  lemma {:induction false} DiagonalIsZero(sqrt: SquareRoot, x: seq<Frame>, w': int, i: nat)
    requires IsSquareRoot(sqrt) && |x| > 0 && i <= |x| && (w' == -1 || w' >= 0)
    ensures Cell(sqrt, x, x, w', i, i) == Fin(0.0)
  {
    if i > 0 {
      DiagonalIsZero(sqrt, x, w', i - 1);
      DiagonalInBand(w', i, |x|);
      IdenticalFramesAtZeroDistance(sqrt, x[i - 1], x[i - 1]);
      CellNonNegative(sqrt, x, x, w', i - 1, i);
      if i >= 2 {
        CellNonNegative(sqrt, x, x, w', i - 1, i - 2);
      }
      assert MinTransition(sqrt, x, x, w', i, i) == Fin(0.0);
    }
  }

  /** When the band covers every column of every row it prunes nothing. */
  lemma {:induction false} WideBandCell(sqrt: SquareRoot, x: seq<Frame>, y: seq<Frame>, w': int, i: nat, j: nat)
    requires |x| > 0 && |y| > 0 && i <= |x| && j <= |y|
    requires w' >= 0 && w' / 2 >= |x| - 1 && w' / 2 >= |y| - 1
    ensures Cell(sqrt, x, y, w', i, j) == Cell(sqrt, x, y, -1, i, j)
  {
    if i > 0 && j >= 1 {
      WideBandCell(sqrt, x, y, w', i - 1, j);
      WideBandCell(sqrt, x, y, w', i - 1, j - 1);
      if j >= 2 {
        WideBandCell(sqrt, x, y, w', i - 1, j - 2);
      }
      assert BandStart(w', i) == 1 && BandEnd(w', i, |y|) == |y|;
      assert InBand(w', i, |y|, j) && InBand(-1, i, |y|, j);
      assert MinTransition(sqrt, x, y, w', i, j) == MinTransition(sqrt, x, y, -1, i, j);
    }
  }

  /**
   * The cells of row `i` that a path can reach: inside the band, and no
   * further right than `2 * i + 1` (the seed row reaches column 1 and every
   * row advances by at most 2).
   */
  predicate InReach(w': int, i: int, m: int, j: int)
  {
    InBand(w', i, m, j) && j <= 2 * i + 1
  }

  /** A reachable cell of row `i` has a reachable predecessor in row `i - 1`, at most two columns to its left. */
  lemma PredecessorInReach(w': int, i: int, m: int, j: int) returns (d: int)
    requires i >= 2 && m >= 1 && (w' == -1 || w' >= 0)
    requires InReach(w', i, m, j) && j <= m
    ensures 0 <= d <= 2 && InReach(w', i - 1, m, j - d)
  {
    if w' == -1 {
      d := if j <= 2 * i - 1 then 0 else j - (2 * i - 1);
    } else {
      var h := w' / 2;
      assert h >= 0;
      var t := j;
      if m < t { t := m; }
      if i - 1 + h < t { t := i - 1 + h; }
      if 2 * i - 1 < t { t := 2 * i - 1; }
      d := j - t;
    }
  }

  /** `minTrans` is finite exactly when one of the predecessors it reads is finite. */
  lemma MinTransitionFinite(sqrt: SquareRoot, x: seq<Frame>, y: seq<Frame>, w': int, i: nat, j: nat)
    requires |x| > 0 && |y| > 0 && 1 <= i <= |x| && 1 <= j <= |y|
    ensures MinTransition(sqrt, x, y, w', i, j).Fin? <==>
      Cell(sqrt, x, y, w', i - 1, j).Fin? || Cell(sqrt, x, y, w', i - 1, j - 1).Fin?
      || (j >= 2 && Cell(sqrt, x, y, w', i - 1, j - 2).Fin?)
  {
    MinTransitionIsCheapest(sqrt, x, y, w', i, j);
  }

  /** A cell of the band of row `i >= 2` is reachable exactly when one of its three predecessors is. */
  lemma ReachStep(w': int, i: int, m: int, j: int)
    requires i >= 2 && 1 <= j <= m && (w' == -1 || w' >= 0) && InBand(w', i, m, j)
    ensures j <= 2 * i + 1 <==>
      InReach(w', i - 1, m, j) || InReach(w', i - 1, m, j - 1) || (j >= 2 && InReach(w', i - 1, m, j - 2))
  {
    if j <= 2 * i + 1 {
      var d := PredecessorInReach(w', i, m, j);
    }
  }

  /** In row 1 a cell of the band is finite exactly when it is one of columns 1..3. */
  lemma FirstRowFinite(sqrt: SquareRoot, x: seq<Frame>, y: seq<Frame>, w': int, j: nat)
    requires |x| > 0 && |y| > 0 && 1 <= j <= |y| && InBand(w', 1, |y|, j)
    ensures Cell(sqrt, x, y, w', 1, j).Fin? <==> j <= 3
  {
    MinTransitionFinite(sqrt, x, y, w', 1, j);
  }

  /** A cell of row `i >= 1` is finite exactly when it lies in the band and in columns `1..2i+1`. */
  lemma {:induction false} FiniteCell(sqrt: SquareRoot, x: seq<Frame>, y: seq<Frame>, w': int, i: nat, j: nat)
    requires |x| > 0 && |y| > 0 && 1 <= i <= |x| && (w' == -1 || w' >= 0) && j <= |y|
    ensures Cell(sqrt, x, y, w', i, j).Fin? <==> InReach(w', i, |y|, j)
  {
    if !InBand(w', i, |y|, j) {
      assert Cell(sqrt, x, y, w', i, j) == Inf;
    } else if i == 1 {
      FirstRowFinite(sqrt, x, y, w', j);
    } else {
      FiniteCell(sqrt, x, y, w', i - 1, j);
      FiniteCell(sqrt, x, y, w', i - 1, j - 1);
      if j >= 2 {
        FiniteCell(sqrt, x, y, w', i - 1, j - 2);
      }
      MinTransitionFinite(sqrt, x, y, w', i, j);
      var reachable := InReach(w', i - 1, |y|, j) || InReach(w', i - 1, |y|, j - 1)
        || (j >= 2 && InReach(w', i - 1, |y|, j - 2));
      assert MinTransition(sqrt, x, y, w', i, j).Fin? <==> reachable;
      ReachStep(w', i, |y|, j);
      assert Cell(sqrt, x, y, w', i, j).Fin? <==> MinTransition(sqrt, x, y, w', i, j).Fin?;
    }
  }

  // ----- the two overloads -----

  /** `ComputeDTW(input, template, -1)` returns what `ComputeDTW(input, template)` returns. */
  lemma SentinelBandIsUnbanded(sqrt: SquareRoot, input: Option<Sequence>, template: Option<Sequence>)
    ensures Banded(sqrt, input, template, -1) == Unbanded(sqrt, input, template)
  {
  }

  /** The banded distance is never below the unbanded one. */
  lemma BandedNotBelowUnbanded(sqrt: SquareRoot, input: Option<Sequence>, template: Option<Sequence>, w: int)
    requires Usable(input) && Usable(template)
    ensures Banded(sqrt, input, template, w).Success? && Unbanded(sqrt, input, template).Success?
    ensures Le(Unbanded(sqrt, input, template).value, Banded(sqrt, input, template, w).value)
  {
    var x, y := FramesOf(input), FramesOf(template);
    var w' := EffectiveWidth(w, |x|, |y|);
    CellAboveUnbanded(sqrt, x, y, w', |x|, |y|);
    RoundMonotone(Cell(sqrt, x, y, -1, |x|, |y|), Cell(sqrt, x, y, w', |x|, |y|));
  }

  /** A band at least as wide as both sequences gives the unbanded distance. */
  lemma WideBandIsUnbanded(sqrt: SquareRoot, input: Option<Sequence>, template: Option<Sequence>, w: int)
    requires Usable(input) && Usable(template)
    requires w / 2 >= |FramesOf(input)| - 1 && w / 2 >= |FramesOf(template)| - 1
    ensures Banded(sqrt, input, template, w) == Unbanded(sqrt, input, template)
  {
    var x, y := FramesOf(input), FramesOf(template);
    var w' := EffectiveWidth(w, |x|, |y|);
    assert w' / 2 >= w / 2;
    WideBandCell(sqrt, x, y, w', |x|, |y|);
  }

  /**
   * A width below twice the length difference (other than -1) is widened, not
   * rejected: it gives what the width `2 * |N - M|` gives.
   */
  lemma NarrowBandWidened(sqrt: SquareRoot, input: Option<Sequence>, template: Option<Sequence>, w: int)
    requires Usable(input) && Usable(template)
    requires w != -1
    requires w < 2 * (|FramesOf(input)| - |FramesOf(template)|) || w < 2 * (|FramesOf(template)| - |FramesOf(input)|)
    ensures var n, m := |FramesOf(input)|, |FramesOf(template)|;
      Banded(sqrt, input, template, w) == Banded(sqrt, input, template, if n >= m then 2 * (n - m) else 2 * (m - n))
  {
  }

  /** A sequence is at distance zero from itself, with either overload and any width. */
  lemma SelfDistanceIsZero(sqrt: SquareRoot, s: Option<Sequence>, w: int)
    requires IsSquareRoot(sqrt) && Usable(s)
    ensures Unbanded(sqrt, s, s) == Success(Fin(0.0))
    ensures Banded(sqrt, s, s, w) == Success(Fin(0.0))
  {
    var x := FramesOf(s);
    RoundZeroAndNonNegative(Fin(0.0));
    DiagonalIsZero(sqrt, x, EffectiveWidth(w, |x|, |x|), |x|);
    DiagonalIsZero(sqrt, x, -1, |x|);
  }

  /** Both overloads return +infinity or a non-negative distance. */
  lemma DistanceNonNegative(sqrt: SquareRoot, input: Option<Sequence>, template: Option<Sequence>, w: int)
    requires IsSquareRoot(sqrt)
    ensures Unbanded(sqrt, input, template).Success? ==> NonNegative(Unbanded(sqrt, input, template).value)
    ensures Banded(sqrt, input, template, w).Success? ==> NonNegative(Banded(sqrt, input, template, w).value)
  {
    if Usable(input) && Usable(template) {
      var x, y := FramesOf(input), FramesOf(template);
      var w' := EffectiveWidth(w, |x|, |y|);
      CellNonNegative(sqrt, x, y, w', |x|, |y|);
      CellNonNegative(sqrt, x, y, -1, |x|, |y|);
      RoundZeroAndNonNegative(Cell(sqrt, x, y, w', |x|, |y|));
      RoundZeroAndNonNegative(Cell(sqrt, x, y, -1, |x|, |y|));
    }
  }

  /**
   * The widened band keeps the last cell reachable: the banded distance is
   * finite exactly when the unbanded one is, that is when the template is at
   * most `2 * N + 1` frames long.
   */
  lemma WideningKeepsEndReachable(sqrt: SquareRoot, input: Option<Sequence>, template: Option<Sequence>, w: int)
    requires Usable(input) && Usable(template)
    ensures Unbanded(sqrt, input, template).value.Fin? <==> |FramesOf(template)| <= 2 * |FramesOf(input)| + 1
    ensures Banded(sqrt, input, template, w).value.Fin? <==> |FramesOf(template)| <= 2 * |FramesOf(input)| + 1
  {
    var x, y := FramesOf(input), FramesOf(template);
    var w' := EffectiveWidth(w, |x|, |y|);
    FiniteCell(sqrt, x, y, w', |x|, |y|);
    FiniteCell(sqrt, x, y, -1, |x|, |y|);
    if w' != -1 {
      var h := w' / 2;
      assert h >= |x| - |y| && h >= |y| - |x|;
      assert BandStart(w', |x|) <= |y| && BandEnd(w', |x|, |y|) == |y|;
    }
  }
}

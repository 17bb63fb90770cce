/** Finite double sums over a matrix given as a function, and the exchange of
    their order of summation. */
module Sums {

  /** f(a, 0) + ... + f(a, j - 1) */
  function RowSum(f: (nat, nat) -> real, a: nat, j: nat): real
  {
    if j == 0 then 0.0 else RowSum(f, a, j - 1) + f(a, j - 1)
  }

  /** f(0, b) + ... + f(i - 1, b) */
  function ColSum(f: (nat, nat) -> real, b: nat, i: nat): real
  {
    if i == 0 then 0.0 else ColSum(f, b, i - 1) + f(i - 1, b)
  }

  /** The sum of f over [0, i) x [0, j), row by row. */
  function ByRows(f: (nat, nat) -> real, i: nat, j: nat): real
  {
    if i == 0 then 0.0 else ByRows(f, i - 1, j) + RowSum(f, i - 1, j)
  }

  /** The sum of f over [0, i) x [0, j), column by column. */
  function ByCols(f: (nat, nat) -> real, i: nat, j: nat): real
  {
    if j == 0 then 0.0 else ByCols(f, i, j - 1) + ColSum(f, j - 1, i)
  }

  /** Adding row i to a column-by-column sum adds that row's sum. */
  lemma {:induction false} ByColsAddRow(f: (nat, nat) -> real, i: nat, j: nat)
    ensures ByCols(f, i + 1, j) == ByCols(f, i, j) + RowSum(f, i, j)
  {
    if j > 0 {
      ByColsAddRow(f, i, j - 1);
    }
  }

  /** Both orders of summation give the same total. */
  lemma {:induction false} ExchangeSums(f: (nat, nat) -> real, i: nat, j: nat)
    ensures ByRows(f, i, j) == ByCols(f, i, j)
  {
    if i == 0 {
      ByColsEmpty(f, j);
    } else {
      ExchangeSums(f, i - 1, j);
      ByColsAddRow(f, i - 1, j);
    }
  }

  lemma {:induction false} ByColsEmpty(f: (nat, nat) -> real, j: nat)
    ensures ByCols(f, 0, j) == 0.0
  {
    if j > 0 {
      ByColsEmpty(f, j - 1);
    }
  }
}

/** How the flows of all suppliers add up: with one preference function per
    criterion shared by all suppliers the net flows cancel out, but with the
    per-supplier choice the engine allows they need not. */
module Balance {
  import opened Preference
  import opened Flows
  import opened Sums
  import opened Report

  /** What supplier a's comparison with b adds to a's positive flow; nothing
      on the diagonal, since a supplier is never compared with itself. */
  function Cell(pr: Problem, exp: Exp, a: nat, b: nat): real
  {
    if pr.WellFormed() && a < |pr.scores| && b < |pr.scores| && a != b
    then PairFlow(pr, exp, Positive, a, b, |pr.weights|)
    else 0.0
  }

  /** The comparison matrix as a function of two supplier numbers. */
  function Matrix(pr: Problem, exp: Exp): (nat, nat) -> real
  {
    (x: nat, y: nat) => Cell(pr, exp, x, y)
  }

  /** The sum of `side` flows over the first i suppliers. */
  function TotalFlow(pr: Problem, exp: Exp, side: Side, i: nat): real
    requires pr.WellFormed() && i <= |pr.scores|
  {
    if i == 0 then 0.0 else TotalFlow(pr, exp, side, i - 1) + Flow(pr, exp, side, i - 1)
  }

  /** The sum of net flows over the first i suppliers. */
  function TotalNet(pr: Problem, exp: Exp, i: nat): real
    requires pr.WellFormed() && i <= |pr.scores|
  {
    if i == 0 then 0.0
    else TotalNet(pr, exp, i - 1) + (Flow(pr, exp, Positive, i - 1) - Flow(pr, exp, Negative, i - 1))
  }

  /** With shared preference functions, what a's comparison with b adds to
      a's positive flow is exactly what b's comparison with a adds to b's
      negative flow. */
  lemma ShareMirror(pr: Problem, exp: Exp, a: nat, b: nat, c: nat)
    requires pr.WellFormed() && pr.FromForm() && pr.SharedPreferences() && ExpLike(exp)
    requires a < |pr.scores| && b < |pr.scores| && c < |pr.weights|
    ensures Share(pr, exp, Negative, b, a, c) == Share(pr, exp, Positive, a, b, c)
  {
    if pr.scores[a][c] == pr.scores[b][c] {
      TieWeighsNothing(pr, exp, b, a, c);
    } else {
      DifferentialSymmetric(pr, a, b, c);
      assert pr.kinds[a][c] == pr.kinds[b][c] && pr.params[a][c] == pr.params[b][c];
    }
  }

  lemma {:induction false} PairFlowMirror(pr: Problem, exp: Exp, a: nat, b: nat, k: nat)
    requires pr.WellFormed() && pr.FromForm() && pr.SharedPreferences() && ExpLike(exp)
    requires a < |pr.scores| && b < |pr.scores| && k <= |pr.weights|
    ensures PairFlow(pr, exp, Negative, b, a, k) == PairFlow(pr, exp, Positive, a, b, k)
  {
    if k > 0 {
      PairFlowMirror(pr, exp, a, b, k - 1);
      ShareMirror(pr, exp, a, b, k - 1);
      assert PairFlow(pr, exp, Negative, b, a, k)
        == PairFlow(pr, exp, Negative, b, a, k - 1) + Share(pr, exp, Negative, b, a, k - 1);
      assert PairFlow(pr, exp, Positive, a, b, k)
        == PairFlow(pr, exp, Positive, a, b, k - 1) + Share(pr, exp, Positive, a, b, k - 1);
    }
  }

  /** Every comparison of a against b adds to a's positive flow exactly what
      the comparison of b against a adds to b's negative flow. */
  predicate Mirrored(pr: Problem, exp: Exp)
    requires pr.WellFormed()
  {
    forall a, b :: 0 <= a < |pr.scores| && 0 <= b < |pr.scores| ==>
      PairFlow(pr, exp, Negative, b, a, |pr.weights|) == PairFlow(pr, exp, Positive, a, b, |pr.weights|)
  }

  /** Shared preference functions make every comparison mirrored. */
  lemma SharedPreferencesMirrored(pr: Problem, exp: Exp)
    requires pr.WellFormed() && pr.FromForm() && pr.SharedPreferences() && ExpLike(exp)
    ensures Mirrored(pr, exp)
  {
    forall a, b | 0 <= a < |pr.scores| && 0 <= b < |pr.scores|
      ensures PairFlow(pr, exp, Negative, b, a, |pr.weights|) == PairFlow(pr, exp, Positive, a, b, |pr.weights|)
    {
      PairFlowMirror(pr, exp, a, b, |pr.weights|);
    }
  }

  /** A supplier's positive flow is its row of the comparison matrix. */
  lemma {:induction false} PositiveIsRow(pr: Problem, exp: Exp, a: nat, j: nat)
    requires pr.WellFormed() && a < |pr.scores| && j <= |pr.scores|
    ensures FlowUpTo(pr, exp, Positive, a, j) == RowSum(Matrix(pr, exp), a, j)
  {
    if j > 0 {
      PositiveIsRow(pr, exp, a, j - 1);
    }
  }

  /** When comparisons are mirrored, a supplier's negative flow is its
      column of the comparison matrix. */
  lemma {:induction false} NegativeIsColumn(pr: Problem, exp: Exp, b: nat, j: nat)
    requires pr.WellFormed() && Mirrored(pr, exp)
    requires b < |pr.scores| && j <= |pr.scores|
    ensures FlowUpTo(pr, exp, Negative, b, j) == ColSum(Matrix(pr, exp), b, j)
  {
    if j > 0 {
      NegativeIsColumn(pr, exp, b, j - 1);
      var f := Matrix(pr, exp);
      assert ColSum(f, b, j) == ColSum(f, b, j - 1) + Cell(pr, exp, j - 1, b);
    }
  }

  /** When comparisons are mirrored, a supplier's whole negative flow is its
      column of the comparison matrix. */
  lemma NegativeFlowIsColumn(pr: Problem, exp: Exp, b: nat)
    requires pr.WellFormed() && Mirrored(pr, exp)
    requires b < |pr.scores|
    ensures Flow(pr, exp, Negative, b) == ColSum(Matrix(pr, exp), b, |pr.scores|)
  {
    NegativeIsColumn(pr, exp, b, |pr.scores|);
  }

  lemma {:induction false} PositiveTotalByRows(pr: Problem, exp: Exp, i: nat)
    requires pr.WellFormed() && i <= |pr.scores|
    ensures TotalFlow(pr, exp, Positive, i) == ByRows(Matrix(pr, exp), i, |pr.scores|)
  {
    if i > 0 {
      PositiveTotalByRows(pr, exp, i - 1);
      PositiveIsRow(pr, exp, i - 1, |pr.scores|);
    }
  }

  lemma {:induction false} NegativeTotalByCols(pr: Problem, exp: Exp, j: nat)
    requires pr.WellFormed() && Mirrored(pr, exp)
    requires j <= |pr.scores|
    ensures TotalFlow(pr, exp, Negative, j) == ByCols(Matrix(pr, exp), |pr.scores|, j)
  {
    if j > 0 {
      NegativeTotalByCols(pr, exp, j - 1);
      NegativeFlowIsColumn(pr, exp, j - 1);
    }
  }

  lemma {:induction false} TotalNetSplits(pr: Problem, exp: Exp, i: nat)
    requires pr.WellFormed() && i <= |pr.scores|
    ensures TotalNet(pr, exp, i) == TotalFlow(pr, exp, Positive, i) - TotalFlow(pr, exp, Negative, i)
  {
    if i > 0 {
      TotalNetSplits(pr, exp, i - 1);
    }
  }

  /** Classical PROMETHEE II: when every supplier uses the same preference
      function and parameters on each criterion, all positive flows together
      equal all negative flows together, so the net flows sum to 0. */
  lemma SharedPreferencesBalance(pr: Problem, exp: Exp)
    requires pr.WellFormed() && pr.FromForm() && pr.SharedPreferences() && ExpLike(exp)
    ensures TotalFlow(pr, exp, Positive, |pr.scores|) == TotalFlow(pr, exp, Negative, |pr.scores|)
    ensures TotalNet(pr, exp, |pr.scores|) == 0.0
  {
    SharedPreferencesMirrored(pr, exp);
    PositiveTotalByRows(pr, exp, |pr.scores|);
    NegativeTotalByCols(pr, exp, |pr.scores|);
    ExchangeSums(Matrix(pr, exp), |pr.scores|, |pr.scores|);
    TotalNetSplits(pr, exp, |pr.scores|);
  }

  /** The sum of the net column of a result table. */
  function NetColumnTotal(rows: seq<Row>): real
  {
    if |rows| == 0 then 0.0 else NetColumnTotal(rows[..|rows| - 1]) + rows[|rows| - 1].net
  }

  /** A table whose net column holds each supplier's positive flow minus its
      negative flow, as `Run` returns, has the net column total `TotalNet`
      over its first i rows. */
  lemma {:induction false} NetColumnIsTotalNet(pr: Problem, exp: Exp, rows: seq<Row>, i: nat)
    requires pr.WellFormed() && |rows| == |pr.scores| && i <= |rows|
    requires forall k :: 0 <= k < |rows| ==>
      rows[k].net == Flow(pr, exp, Positive, k) - Flow(pr, exp, Negative, k)
    ensures NetColumnTotal(rows[..i]) == TotalNet(pr, exp, i)
  {
    if i > 0 {
      NetColumnIsTotalNet(pr, exp, rows, i - 1);
      assert rows[..i][..i - 1] == rows[..i - 1];
    }
  }

  /** The balance theorem on the table `Run` returns: with shared preference
      functions, the net column sums to 0. */
  lemma SharedPreferencesTableBalance(pr: Problem, exp: Exp, rows: seq<Row>)
    requires pr.WellFormed() && pr.FromForm() && pr.SharedPreferences() && ExpLike(exp)
    requires |rows| == |pr.scores|
    requires forall k :: 0 <= k < |rows| ==>
      rows[k].net == Flow(pr, exp, Positive, k) - Flow(pr, exp, Negative, k)
    ensures NetColumnTotal(rows) == 0.0
  {
    SharedPreferencesBalance(pr, exp);
    NetColumnIsTotalNet(pr, exp, rows, |rows|);
    assert rows[..|rows|] == rows;
  }

  /** Two suppliers, one criterion of weight 10, scores 80 and 20; the first
      supplier uses Linear, the second U-Shape with q = r = 100. */
  function UnbalancedProblem(): Problem
  {
    Problem([[80.0], [20.0]], [10.0], [[Linear], [UShape]], [[NoParams], [Thresholds(100.0, 100.0)]])
  }

  lemma UnbalancedComparisons(exp: Exp)
    ensures UnbalancedProblem().WellFormed()
    ensures PairFlow(UnbalancedProblem(), exp, Positive, 0, 1, 1) == 10.0
    ensures PairFlow(UnbalancedProblem(), exp, Negative, 0, 1, 1) == 0.0
    ensures PairFlow(UnbalancedProblem(), exp, Positive, 1, 0, 1) == 0.0
    ensures PairFlow(UnbalancedProblem(), exp, Negative, 1, 0, 1) == 0.0
  {
    var pr := UnbalancedProblem();
    assert Differential(pr, 0, 1, 0) == 60.0 && Differential(pr, 1, 0, 0) == 60.0;
    assert Weighted(pr, exp, 0, 1, 0) == Mul(10.0, 1.0) == 10.0;
    assert Weighted(pr, exp, 1, 0, 0) == Mul(10.0, 0.0) == 0.0;
  }

  /** With per-supplier preference functions the net flows need not cancel:
      in UnbalancedProblem the first supplier gains 10 and the second loses
      nothing, since its U-Shape ignores a difference of 60. */
  lemma UnbalancedNetFlows(exp: Exp)
    ensures UnbalancedProblem().WellFormed()
    ensures TotalNet(UnbalancedProblem(), exp, 2) == 10.0
  {
    var pr := UnbalancedProblem();
    UnbalancedComparisons(exp);
    TwoSupplierFlows(pr, exp, Positive);
    TwoSupplierFlows(pr, exp, Negative);
    assert TotalNet(pr, exp, 2) == TotalNet(pr, exp, 1) + (Flow(pr, exp, Positive, 1) - Flow(pr, exp, Negative, 1));
    assert TotalNet(pr, exp, 1) == Flow(pr, exp, Positive, 0) - Flow(pr, exp, Negative, 0);
  }
}

/** The end of the engine: net flows and the result table, one row per
    selected supplier in selection order. The table is never sorted. */
module Report {
  import opened Preference
  import opened Flows

  /** One line of the result table: supplier, positive flow, negative flow
      and net flow. */
  datatype Row = Row(supplier: string, positive: real, negative: real, net: real)

  /** Net flow per supplier: positive flow minus negative flow. */
  function NetFlows(positive: seq<real>, negative: seq<real>): (net: seq<real>)
    requires |positive| == |negative|
    ensures |net| == |positive|
    ensures forall i :: 0 <= i < |net| ==> net[i] == positive[i] - negative[i]
  {
    if |positive| == 0 then []
    else
      var k := |positive| - 1;
      NetFlows(positive[..k], negative[..k]) + [positive[k] - negative[k]]
  }

  /** The result table built column by column: names, positive flows,
      negative flows and net flows, zipped in the given order. */
  function ResultRows(names: seq<string>, positive: seq<real>, negative: seq<real>, net: seq<real>): (rows: seq<Row>)
    requires |positive| == |names| && |negative| == |names| && |net| == |names|
    ensures |rows| == |names|
    ensures forall i :: 0 <= i < |rows| ==>
      rows[i] == Row(names[i], positive[i], negative[i], net[i])
  {
    if |names| == 0 then []
    else
      var k := |names| - 1;
      ResultRows(names[..k], positive[..k], negative[..k], net[..k])
        + [Row(names[k], positive[k], negative[k], net[k])]
  }

  /** The whole engine: flows, net flows, then the table. Row i belongs to
      the i-th selected supplier and carries its two flows and their
      difference. */
  method Run(names: seq<string>, pr: Problem, exp: Exp) returns (rows: seq<Row>)
    requires pr.WellFormed() && |names| == |pr.scores|
    ensures |rows| == |names|
    ensures forall i :: 0 <= i < |rows| ==>
      && rows[i].supplier == names[i]
      && rows[i].positive == Flow(pr, exp, Positive, i)
      && rows[i].negative == Flow(pr, exp, Negative, i)
      && rows[i].net == rows[i].positive - rows[i].negative
  {
    var positive, negative := ComputeFlows(pr, exp);
    var net := NetFlows(positive, negative);
    rows := ResultRows(names, positive, negative, net);
  }

  /** Two suppliers, one criterion of weight 10, both using Linear, scores
      80 and 20. */
  function TwoSupplierProblem(): Problem
  {
    Problem([[80.0], [20.0]], [10.0], [[Linear], [Linear]], [[NoParams], [NoParams]])
  }

  /** The worked example's flows: the higher-scoring supplier gets (10, 0),
      the other (0, 10). */
  lemma TwoSupplierFlowValues(exp: Exp)
    ensures TwoSupplierProblem().WellFormed()
    ensures Flow(TwoSupplierProblem(), exp, Positive, 0) == 10.0
    ensures Flow(TwoSupplierProblem(), exp, Negative, 0) == 0.0
    ensures Flow(TwoSupplierProblem(), exp, Positive, 1) == 0.0
    ensures Flow(TwoSupplierProblem(), exp, Negative, 1) == 10.0
  {
    var pr := TwoSupplierProblem();
    TwoSupplierFlows(pr, exp, Positive);
    TwoSupplierFlows(pr, exp, Negative);
    assert Differential(pr, 0, 1, 0) == 60.0 && Differential(pr, 1, 0, 0) == 60.0;
    assert Weighted(pr, exp, 0, 1, 0) == Mul(10.0, 1.0) == 10.0;
    assert Weighted(pr, exp, 1, 0, 0) == Mul(10.0, 1.0) == 10.0;
  }

  /** The worked example end to end: the table built from the engine's flows
      lists (A, 10, 0, +10) and (B, 0, 10, -10), in the order given. */
  lemma TwoSupplierExample(exp: Exp)
    ensures TwoSupplierProblem().WellFormed()
    ensures ResultRows(["A", "B"],
        [Flow(TwoSupplierProblem(), exp, Positive, 0), Flow(TwoSupplierProblem(), exp, Positive, 1)],
        [Flow(TwoSupplierProblem(), exp, Negative, 0), Flow(TwoSupplierProblem(), exp, Negative, 1)],
        NetFlows([Flow(TwoSupplierProblem(), exp, Positive, 0), Flow(TwoSupplierProblem(), exp, Positive, 1)],
                 [Flow(TwoSupplierProblem(), exp, Negative, 0), Flow(TwoSupplierProblem(), exp, Negative, 1)]))
      == [Row("A", 10.0, 0.0, 10.0), Row("B", 0.0, 10.0, -10.0)]
  {
    TwoSupplierFlowValues(exp);
    var pr := TwoSupplierProblem();
    var positive := [Flow(pr, exp, Positive, 0), Flow(pr, exp, Positive, 1)];
    var negative := [Flow(pr, exp, Negative, 0), Flow(pr, exp, Negative, 1)];
    assert positive == [10.0, 0.0] && negative == [0.0, 10.0];
    assert NetFlows(positive, negative) == [10.0, -10.0];
  }
}

/** Flow aggregation of the PROMETHEE II engine: every supplier is compared
    with every other supplier on every criterion, and the weighted preference
    degrees are summed into a positive and a negative flow per supplier. */
module Flows {
  import opened Preference

  /** The data the engine reads. Suppliers and criteria are numbered in the
      order they were selected: scores[a][c] is supplier a's score on
      criterion c, weights[c] the weight of criterion c, and kinds[a][c],
      params[a][c] the preference function supplier a chose for criterion c
      with its parameters. */
  datatype Problem = Problem(
    scores: seq<seq<real>>,
    weights: seq<real>,
    kinds: seq<seq<Kind>>,
    params: seq<seq<Params>>)
  {
    /** Every table is complete for every supplier and criterion, and every
        chosen preference function can be evaluated with its parameters. */
    predicate WellFormed()
    {
      && |kinds| == |scores|
      && |params| == |scores|
      && (forall a :: 0 <= a < |scores| ==>
            |scores[a]| == |weights| && |kinds[a]| == |weights| && |params[a]| == |weights|)
      && (forall a, c :: 0 <= a < |scores| && 0 <= c < |weights| ==>
            Defined(kinds[a][c], params[a][c]))
    }

    /** The ranges the entry form enforces: weights in [0, 25], scores at
        least 0, thresholds and spreads within their input ranges. */
    predicate FromForm()
      requires WellFormed()
    {
      && (forall c :: 0 <= c < |weights| ==> 0.0 <= weights[c] <= 25.0)
      && (forall a, c :: 0 <= a < |scores| && 0 <= c < |weights| ==>
            scores[a][c] >= 0.0 && InFormRange(params[a][c]))
    }

    /** Every supplier uses the same preference function and parameters on a
        given criterion, as in classical PROMETHEE II. */
    predicate SharedPreferences()
      requires WellFormed()
    {
      forall a, b, c :: 0 <= a < |scores| && 0 <= b < |scores| && 0 <= c < |weights| ==>
        kinds[a][c] == kinds[b][c] && params[a][c] == params[b][c]
    }
  }

  /** Which accumulator a comparison goes to. */
  datatype Side = Positive | Negative

  /** The unsigned difference of suppliers a and b on criterion c. */
  function Differential(pr: Problem, a: nat, b: nat, c: nat): (d: real)
    requires pr.WellFormed() && a < |pr.scores| && b < |pr.scores| && c < |pr.weights|
    ensures d >= 0.0
    ensures d == pr.scores[a][c] - pr.scores[b][c] || d == pr.scores[b][c] - pr.scores[a][c]
    ensures d == 0.0 <==> pr.scores[a][c] == pr.scores[b][c]
  {
    var x := pr.scores[a][c] - pr.scores[b][c];
    if x < 0.0 then -x else x
  }

  /** The side a comparison of a against b on criterion c is added to: the
      positive one only when a scores strictly higher, ties included in the
      negative one. */
  function RouteOf(pr: Problem, a: nat, b: nat, c: nat): (side: Side)
    requires pr.WellFormed() && a < |pr.scores| && b < |pr.scores| && c < |pr.weights|
    ensures side == Positive ==> pr.scores[b][c] < pr.scores[a][c]
    ensures side == Negative ==> pr.scores[a][c] <= pr.scores[b][c]
  {
    if pr.scores[a][c] > pr.scores[b][c] then Positive else Negative
  }

  /** Weight times preference degree of a over b on criterion c, evaluated
      with the preference function and parameters of a, the supplier being
      scored. A zero weight silences the criterion; with a non-negative
      weight and a shape other than V-Shape and Gaussian the result lies in
      [0, weight] whatever the thresholds. */
  function Weighted(pr: Problem, exp: Exp, a: nat, b: nat, c: nat): (w: real)
    requires pr.WellFormed() && a < |pr.scores| && b < |pr.scores| && c < |pr.weights|
    ensures pr.weights[c] == 0.0 ==> w == 0.0
    ensures pr.weights[c] >= 0.0 && pr.kinds[a][c] != VShape && pr.kinds[a][c] != Gaussian
      ==> 0.0 <= w <= pr.weights[c]
  {
    var g := Degree(pr.kinds[a][c], Differential(pr, a, b, c), pr.params[a][c], exp);
    ScaleFacts(pr.weights[c], g);
    Mul(pr.weights[c], g)
  }

  /** What the comparison of a against b on criterion c adds to a's `side`:
      the whole weighted degree or nothing, and nothing to the positive side
      unless a scores strictly higher. */
  function Share(pr: Problem, exp: Exp, side: Side, a: nat, b: nat, c: nat): (v: real)
    requires pr.WellFormed() && a < |pr.scores| && b < |pr.scores| && c < |pr.weights|
    ensures v == 0.0 || v == Weighted(pr, exp, a, b, c)
    ensures side == Positive && pr.scores[a][c] <= pr.scores[b][c] ==> v == 0.0
    ensures side == Negative && pr.scores[b][c] < pr.scores[a][c] ==> v == 0.0
  {
    if RouteOf(pr, a, b, c) == side then Weighted(pr, exp, a, b, c) else 0.0
  }

  /** What comparing a against b on the first k criteria adds to a's `side`. */
  function PairFlow(pr: Problem, exp: Exp, side: Side, a: nat, b: nat, k: nat): real
    requires pr.WellFormed() && a < |pr.scores| && b < |pr.scores| && k <= |pr.weights|

  {
    if k == 0 then 0.0
    else PairFlow(pr, exp, side, a, b, k - 1) + Share(pr, exp, side, a, b, k - 1)
  }

  /** A supplier gains nothing positive from b unless it beats b somewhere,
      and nothing negative if it beats b everywhere. */
  lemma {:induction false} PairFlowDominated(pr: Problem, exp: Exp, side: Side, a: nat, b: nat, k: nat)
    requires pr.WellFormed() && a < |pr.scores| && b < |pr.scores| && k <= |pr.weights|
    ensures side == Positive && BehindOn(pr, a, b, k) ==> PairFlow(pr, exp, side, a, b, k) == 0.0
    ensures side == Negative && AheadOn(pr, a, b, k) ==> PairFlow(pr, exp, side, a, b, k) == 0.0
  {
    if k > 0 {
      PairFlowDominated(pr, exp, side, a, b, k - 1);
    }
  }

  /** Supplier a scores no higher than b on each of the first k criteria. */
  predicate BehindOn(pr: Problem, a: nat, b: nat, k: nat)
    requires pr.WellFormed() && a < |pr.scores| && b < |pr.scores| && k <= |pr.weights|
  {
    k == 0 || (BehindOn(pr, a, b, k - 1) && pr.scores[a][k - 1] <= pr.scores[b][k - 1])
  }

  /** Supplier a scores strictly higher than b on each of the first k criteria. */
  predicate AheadOn(pr: Problem, a: nat, b: nat, k: nat)
    requires pr.WellFormed() && a < |pr.scores| && b < |pr.scores| && k <= |pr.weights|
  {
    k == 0 || (AheadOn(pr, a, b, k - 1) && pr.scores[b][k - 1] < pr.scores[a][k - 1])
  }

  /** Supplier a is behind each of the first j suppliers on every criterion. */
  predicate NeverAhead(pr: Problem, a: nat, j: nat)
    requires pr.WellFormed() && a < |pr.scores| && j <= |pr.scores|
  {
    j == 0 || (NeverAhead(pr, a, j - 1) && BehindOn(pr, a, j - 1, |pr.weights|))
  }

  /** Supplier a is strictly ahead of each other supplier among the first j
      on every criterion. */
  predicate AlwaysAhead(pr: Problem, a: nat, j: nat)
    requires pr.WellFormed() && a < |pr.scores| && j <= |pr.scores|
  {
    j == 0 || (AlwaysAhead(pr, a, j - 1) && (j - 1 == a || AheadOn(pr, a, j - 1, |pr.weights|)))
  }

  /** What comparing a against every other supplier among the first j, on
      every criterion, adds to a's `side`. */
  function FlowUpTo(pr: Problem, exp: Exp, side: Side, a: nat, j: nat): (v: real)
    requires pr.WellFormed() && a < |pr.scores| && j <= |pr.scores|

  {
    if j == 0 then 0.0
    else if j - 1 == a then FlowUpTo(pr, exp, side, a, j - 1)
    else FlowUpTo(pr, exp, side, a, j - 1) + PairFlow(pr, exp, side, a, j - 1, |pr.weights|)
  }

  /** Supplier a's positive or negative flow. A supplier that beats nobody
      on any criterion has positive flow 0; one that strictly beats every
      other supplier on every criterion has negative flow 0. */
  function Flow(pr: Problem, exp: Exp, side: Side, a: nat): (v: real)
    requires pr.WellFormed() && a < |pr.scores|
    ensures side == Positive && NeverAhead(pr, a, |pr.scores|) ==> v == 0.0
    ensures side == Negative && AlwaysAhead(pr, a, |pr.scores|) ==> v == 0.0

  {
    FlowUpToDominated(pr, exp, side, a, |pr.scores|);
    FlowUpTo(pr, exp, side, a, |pr.scores|)
  }

  /** The partial flows of a supplier behind everyone, or strictly ahead of
      everyone, have nothing on the respective side. */
  lemma {:induction false} FlowUpToDominated(pr: Problem, exp: Exp, side: Side, a: nat, j: nat)
    requires pr.WellFormed() && a < |pr.scores| && j <= |pr.scores|
    ensures side == Positive && NeverAhead(pr, a, j) ==> FlowUpTo(pr, exp, side, a, j) == 0.0
    ensures side == Negative && AlwaysAhead(pr, a, j) ==> FlowUpTo(pr, exp, side, a, j) == 0.0
  {
    if j > 0 {
      FlowUpToDominated(pr, exp, side, a, j - 1);
      PairFlowDominated(pr, exp, side, a, j - 1, |pr.weights|);
    }
  }

  /** The flow computation: for each supplier in order, a positive and a
      negative accumulator are filled by comparing it with every other
      supplier on every criterion. */
  method ComputeFlows(pr: Problem, exp: Exp) returns (positive: seq<real>, negative: seq<real>)
    requires pr.WellFormed()
    ensures |positive| == |pr.scores| && |negative| == |pr.scores|
    ensures forall a :: 0 <= a < |pr.scores| ==>
      positive[a] == Flow(pr, exp, Positive, a) && negative[a] == Flow(pr, exp, Negative, a)
  {
    var n, m := |pr.scores|, |pr.weights|;
    positive, negative := [], [];
    var a := 0;
    while a < n
      invariant 0 <= a <= n
      invariant |positive| == a && |negative| == a
      invariant forall i :: 0 <= i < a ==>
        positive[i] == Flow(pr, exp, Positive, i) && negative[i] == Flow(pr, exp, Negative, i)
    {
      var pos, neg := 0.0, 0.0;
      var b := 0;
      while b < n
        invariant 0 <= b <= n
        invariant pos == FlowUpTo(pr, exp, Positive, a, b)
        invariant neg == FlowUpTo(pr, exp, Negative, a, b)
      {
        if a != b {
          var c := 0;
          while c < m
            invariant 0 <= c <= m
            invariant pos == FlowUpTo(pr, exp, Positive, a, b) + PairFlow(pr, exp, Positive, a, b, c)
            invariant neg == FlowUpTo(pr, exp, Negative, a, b) + PairFlow(pr, exp, Negative, a, b, c)
          {
            var difference := Differential(pr, a, b, c);
            var degree := Degree(pr.kinds[a][c], difference, pr.params[a][c], exp);
            assert pr.weights[c] * degree == Weighted(pr, exp, a, b, c);
            if pr.scores[a][c] > pr.scores[b][c] {
              assert Share(pr, exp, Positive, a, b, c) == Weighted(pr, exp, a, b, c);
              assert Share(pr, exp, Negative, a, b, c) == 0.0;
              pos := pos + pr.weights[c] * degree;
            } else {
              assert Share(pr, exp, Positive, a, b, c) == 0.0;
              assert Share(pr, exp, Negative, a, b, c) == Weighted(pr, exp, a, b, c);
              neg := neg + pr.weights[c] * degree;
            }
            c := c + 1;
          }
        }
        b := b + 1;
      }
      assert pos == Flow(pr, exp, Positive, a) && neg == Flow(pr, exp, Negative, a);
      positive := positive + [pos];
      negative := negative + [neg];
      a := a + 1;
    }
  }

  /** Differential does not depend on the order of the two suppliers. */
  lemma DifferentialSymmetric(pr: Problem, a: nat, b: nat, c: nat)
    requires pr.WellFormed() && a < |pr.scores| && b < |pr.scores| && c < |pr.weights|
    ensures Differential(pr, a, b, c) == Differential(pr, b, a, c)
  {
  }

  /** A tie never adds to the positive side: the comparison is strict. */
  lemma TieGoesNegative(pr: Problem, exp: Exp, a: nat, b: nat, c: nat)
    requires pr.WellFormed() && a < |pr.scores| && b < |pr.scores| && c < |pr.weights|
    requires pr.scores[a][c] == pr.scores[b][c]
    ensures Share(pr, exp, Positive, a, b, c) == 0.0
    ensures Share(pr, exp, Negative, a, b, c) == Weighted(pr, exp, a, b, c)
  {
  }

  /** Each comparison goes to exactly one side. */
  lemma ShareSplits(pr: Problem, exp: Exp, a: nat, b: nat, c: nat)
    requires pr.WellFormed() && a < |pr.scores| && b < |pr.scores| && c < |pr.weights|
    ensures Share(pr, exp, Positive, a, b, c) + Share(pr, exp, Negative, a, b, c)
      == Weighted(pr, exp, a, b, c)
  {
  }

  /** Suppliers with the same scores on every criterion give each other no
      positive flow. */
  lemma {:induction false} IdenticalSuppliersNoPositive(pr: Problem, exp: Exp, a: nat, b: nat, k: nat)
    requires pr.WellFormed() && a < |pr.scores| && b < |pr.scores| && k <= |pr.weights|
    requires pr.scores[a] == pr.scores[b]
    ensures PairFlow(pr, exp, Positive, a, b, k) == 0.0
  {
    if k > 0 {
      IdenticalSuppliersNoPositive(pr, exp, a, b, k - 1);
      TieGoesNegative(pr, exp, a, b, k - 1);
    }
  }

  /** A supplier is never compared with itself, so a lone supplier has both
      flows 0. */
  lemma SingleSupplierFlowsZero(pr: Problem, exp: Exp, side: Side)
    requires pr.WellFormed() && |pr.scores| == 1
    ensures Flow(pr, exp, side, 0) == 0.0
  {
    assert FlowUpTo(pr, exp, side, 0, 1) == FlowUpTo(pr, exp, side, 0, 0);
  }

  /** With two suppliers each one's flow is its comparison with the other. */
  lemma TwoSupplierFlows(pr: Problem, exp: Exp, side: Side)
    requires pr.WellFormed() && |pr.scores| == 2
    ensures Flow(pr, exp, side, 0) == PairFlow(pr, exp, side, 0, 1, |pr.weights|)
    ensures Flow(pr, exp, side, 1) == PairFlow(pr, exp, side, 1, 0, |pr.weights|)
  {
    assert FlowUpTo(pr, exp, side, 0, 1) == FlowUpTo(pr, exp, side, 0, 0) == 0.0;
    assert FlowUpTo(pr, exp, side, 1, 1) == FlowUpTo(pr, exp, side, 1, 0) + PairFlow(pr, exp, side, 1, 0, |pr.weights|);
  }

  /** Under the entry form's ranges a weighted degree lies in [0, weight]. */
  lemma WeightedBounds(pr: Problem, exp: Exp, a: nat, b: nat, c: nat)
    requires pr.WellFormed() && pr.FromForm() && ExpLike(exp)
    requires a < |pr.scores| && b < |pr.scores| && c < |pr.weights|
    ensures 0.0 <= Weighted(pr, exp, a, b, c) <= pr.weights[c]
  {
    var g := Degree(pr.kinds[a][c], Differential(pr, a, b, c), pr.params[a][c], exp);
    DegreeInUnitInterval(pr.kinds[a][c], Differential(pr, a, b, c), pr.params[a][c], exp);
    ScaleBounds(pr.weights[c], g);
  }

  lemma ScaleFacts(w: real, g: real)
    ensures w == 0.0 ==> Mul(w, g) == 0.0
    ensures w >= 0.0 && 0.0 <= g <= 1.0 ==> 0.0 <= Mul(w, g) <= w
  {
    if w >= 0.0 && 0.0 <= g <= 1.0 {
      ScaleBounds(w, g);
    }
  }

  lemma ScaleBounds(w: real, g: real)
    requires w >= 0.0 && 0.0 <= g <= 1.0
    ensures 0.0 <= Mul(w, g) <= w
  {
    calc {
      w - Mul(w, g);
      w * (1.0 - g);
      Mul(w, 1.0 - g);
    }
    MulNonNegative(w, g);
    MulNonNegative(w, 1.0 - g);
  }

  /** Under the entry form's ranges what a pair of suppliers adds to either
      side is non-negative, and both sides together add exactly the weighted
      degrees, at most the sum of the weights. */
  lemma {:induction false} PairFlowBounds(pr: Problem, exp: Exp, a: nat, b: nat, k: nat)
    requires pr.WellFormed() && pr.FromForm() && ExpLike(exp)
    requires a < |pr.scores| && b < |pr.scores| && k <= |pr.weights|
    ensures PairFlow(pr, exp, Positive, a, b, k) >= 0.0
    ensures PairFlow(pr, exp, Negative, a, b, k) >= 0.0
    ensures PairFlow(pr, exp, Positive, a, b, k) + PairFlow(pr, exp, Negative, a, b, k)
      <= WeightSum(pr.weights, k)
  {
    if k > 0 {
      PairFlowBounds(pr, exp, a, b, k - 1);
      WeightedBounds(pr, exp, a, b, k - 1);
      ShareSplits(pr, exp, a, b, k - 1);
    }
  }

  /** The sum of the first k weights. */
  function WeightSum(weights: seq<real>, k: nat): real
    requires k <= |weights|
  {
    if k == 0 then 0.0 else WeightSum(weights, k - 1) + weights[k - 1]
  }

  /** How many of the first j suppliers are compared with supplier a. */
  function Others(a: nat, j: nat): nat
  {
    if a < j then j - 1 else j
  }

  /** Under the entry form's ranges both flows are non-negative and their
      sum is at most (j - 1) times the sum of the weights over the first j
      suppliers. */
  lemma {:induction false} FlowUpToBounds(pr: Problem, exp: Exp, a: nat, j: nat)
    requires pr.WellFormed() && pr.FromForm() && ExpLike(exp)
    requires a < |pr.scores| && j <= |pr.scores|
    ensures FlowUpTo(pr, exp, Positive, a, j) >= 0.0
    ensures FlowUpTo(pr, exp, Negative, a, j) >= 0.0
    ensures FlowUpTo(pr, exp, Positive, a, j) + FlowUpTo(pr, exp, Negative, a, j)
      <= Mul(Others(a, j) as real, WeightSum(pr.weights, |pr.weights|))
  {
    var total := WeightSum(pr.weights, |pr.weights|);
    if j == 0 {
      assert Mul(0.0, total) == 0.0;
    } else {
      FlowUpToBounds(pr, exp, a, j - 1);
      if j - 1 != a {
        PairFlowBounds(pr, exp, a, j - 1, |pr.weights|);
        var k := Others(a, j - 1) as real;
        assert Others(a, j) as real == k + 1.0;
        MulSucc(k, total);
      }
    }
  }

  lemma MulSucc(k: real, w: real)
    ensures Mul(k + 1.0, w) == Mul(k, w) + w
  {
    calc {
      Mul(k + 1.0, w);
      (k + 1.0) * w;
      k * w + w;
      Mul(k, w) + w;
    }
  }

  /** Under the entry form's ranges every flow is non-negative, and a
      supplier's two flows sum to at most (n - 1) times the sum of the
      weights, n being the number of suppliers. */
  lemma FlowBounds(pr: Problem, exp: Exp, a: nat)
    requires pr.WellFormed() && pr.FromForm() && ExpLike(exp)
    requires a < |pr.scores|
    ensures Flow(pr, exp, Positive, a) >= 0.0
    ensures Flow(pr, exp, Negative, a) >= 0.0
    ensures Flow(pr, exp, Positive, a) + Flow(pr, exp, Negative, a)
      <= ((|pr.scores| - 1) as real) * WeightSum(pr.weights, |pr.weights|)
  {
    FlowUpToBounds(pr, exp, a, |pr.scores|);
    assert Others(a, |pr.scores|) == |pr.scores| - 1;
  }

  /** A comparison of two suppliers tied on a criterion adds nothing to
      either side under the entry form's ranges: the degree of a zero
      difference is 0. */
  lemma TieWeighsNothing(pr: Problem, exp: Exp, a: nat, b: nat, c: nat)
    requires pr.WellFormed() && pr.FromForm() && ExpLike(exp)
    requires a < |pr.scores| && b < |pr.scores| && c < |pr.weights|
    requires pr.scores[a][c] == pr.scores[b][c]
    ensures Weighted(pr, exp, a, b, c) == 0.0
  {
    DegreeAtZero(pr.kinds[a][c], pr.params[a][c], exp);
    assert Mul(pr.weights[c], 0.0) == 0.0;
  }

  lemma {:induction false} IdenticalPairFlowZero(pr: Problem, exp: Exp, side: Side, a: nat, b: nat, k: nat)
    requires pr.WellFormed() && pr.FromForm() && ExpLike(exp)
    requires a < |pr.scores| && b < |pr.scores| && k <= |pr.weights|
    requires pr.scores[a] == pr.scores[b]
    ensures PairFlow(pr, exp, side, a, b, k) == 0.0
  {
    if k > 0 {
      IdenticalPairFlowZero(pr, exp, side, a, b, k - 1);
      TieWeighsNothing(pr, exp, a, b, k - 1);
    }
  }

  lemma {:induction false} IdenticalFlowUpToZero(pr: Problem, exp: Exp, side: Side, a: nat, j: nat)
    requires pr.WellFormed() && pr.FromForm() && ExpLike(exp)
    requires a < |pr.scores| && j <= |pr.scores|
    requires forall b :: 0 <= b < |pr.scores| ==> pr.scores[b] == pr.scores[a]
    ensures FlowUpTo(pr, exp, side, a, j) == 0.0
  {
    if j > 0 {
      IdenticalFlowUpToZero(pr, exp, side, a, j - 1);
      if j - 1 != a {
        IdenticalPairFlowZero(pr, exp, side, a, j - 1, |pr.weights|);
      }
    }
  }

  /** When all suppliers have the same scores every flow is 0, under the
      entry form's ranges. */
  lemma IdenticalScoresZeroFlows(pr: Problem, exp: Exp, a: nat)
    requires pr.WellFormed() && pr.FromForm() && ExpLike(exp)
    requires a < |pr.scores|
    requires forall b :: 0 <= b < |pr.scores| ==> pr.scores[b] == pr.scores[a]
    ensures Flow(pr, exp, Positive, a) == 0.0 && Flow(pr, exp, Negative, a) == 0.0
    ensures Flow(pr, exp, Positive, a) - Flow(pr, exp, Negative, a) == 0.0
  {
    IdenticalFlowUpToZero(pr, exp, Positive, a, |pr.scores|);
    IdenticalFlowUpToZero(pr, exp, Negative, a, |pr.scores|);
  }
}

# PROMETHEE II supplier ranking — a verified model of the flow engine

`sad.py` is a Streamlit page for choosing suppliers. The user picks criteria
and suppliers, gives each criterion a weight, and gives each supplier a score
on every criterion. For every (supplier, criterion) pair the user also chooses
one of six PROMETHEE preference functions (Linear, U-Shape, V-Shape, Level,
V-Shape I, Gaussian) with its thresholds `q`, `r` or spread `s`. The page then
runs the PROMETHEE II engine that this project models:

- `calcular_diferencial` takes the absolute difference of two suppliers'
  scores on one criterion.
- `aplicar_funcao_preferencia` turns a difference into a preference degree
  using one of the six shapes.
- `calcular_fluxos` compares every supplier with every other supplier on every
  criterion. It adds `weight × degree` to the positive flow of the supplier
  being scored when that supplier scores strictly higher, and to its negative
  flow otherwise, ties included. The degree always uses the scoring supplier's
  own preference function and parameters.
- The net flow of a supplier is positive minus negative. The result table has
  one row (name, positive, negative, net) per selected supplier, in selection
  order.

Modules:

- `Preference` (preference.dfy) holds the six shapes, the parameter
  dictionary as a datatype, and the evaluator `Degree`. Its lemmas cover
  bounds, the value at zero, monotonicity and saturation for every shape,
  and the exact values of every shape except Gaussian, whose value depends
  on the exponential.
- `Flows` (flows.dfy) holds the input tables (`Problem`), the difference, and
  a pure sum specification of both flows (`PairFlow`, `FlowUpTo`, `Flow`).
  The triple loop `ComputeFlows` is proved equal to that specification. The
  module also proves the flow lemmas: tie routing, bounds, the
  single-supplier and identical-score cases.
- `Report` (report.dfy) holds net flows, the result rows, the whole engine
  `Run`, and the two-supplier worked example.
- `Sums` and `Balance` (balance.dfy) show that when all suppliers share the
  same preference function per criterion (classical PROMETHEE II), the net
  flows sum to 0, and so does the net column of the table `Run` returns. A concrete two-supplier problem shows that with the
  per-supplier choice this page allows, they need not.

Arithmetic is exact (`real`). The exponential used by the Gaussian shape is a
parameter `exp` of the evaluator. Facts about Gaussian degrees assume only
`ExpLike(exp)`: exp(0) = 1, values in [0, 1] for non-positive arguments, and
monotone there. Values of 0 are allowed because a floating-point exponential
underflows to 0 for very negative arguments.

Two facts about the code shape the model:

- The result table is never sorted (sad.py:169-174), so the rows stay in
  selection order and no ranking step is modelled.
- V-Shape I cannot divide by zero: its middle branch (sad.py:132-133) is only
  taken when `q < d <= r`, which forces `r - q > 0`. `Defined` therefore
  places no condition on V-Shape I thresholds. `q < r` appears only in
  `VShapeIFacts`, the lemma that states the shape's intended behaviour.

`Defined` excludes three further cases, which the model does not evaluate:

- V-Shape with `r = 0`, which the form allows (sad.py:98). The difference is
  a numpy integer taken from a DataFrame (sad.py:107, 112), so the division
  at sad.py:121 does not raise. It yields infinity, and `min` then gives 1,
  when `d > 0`. It yields NaN when `d = 0`, and on a tie sad.py:157 turns the
  scoring supplier's negative flow into NaN.
- Gaussian with `s = 0`. It behaves the same way, but the form cannot produce
  it, since `s >= 0.1` there (sad.py:102).
- A missing `q`, `r` or `s` key, which raises KeyError. The form always
  stores the keys the chosen shape reads (sad.py:95-103), so this case does
  not arise either.

## Model

| member | source | states |
|---|---|---|
| `Flows.Differential` | sad.py:111-112 | the difference is non-negative, it is one of the two signed differences, and it is 0 exactly when the two scores are equal |
| `Flows.DifferentialSymmetric` | sad.py:111-112 | swapping the two suppliers leaves the difference unchanged |
| `Preference.Degree` | sad.py:115-137 | evaluates the six shapes, requiring only that the parameters the shape reads exist and that it does not divide by zero; whatever the thresholds, no shape but Gaussian exceeds 1, Linear and U-Shape give only 0 or 1, Level only 0, 0.5 or 1, only V-Shape and Gaussian can go below 0, and Gaussian lies in [0, 1] under `ExpLike` |
| `Preference.GaussianExponent` | sad.py:137 | the exponent -(d²)/(2s²) is never positive and is 0 exactly when d = 0 |
| `Preference.DegreeInUnitInterval` | sad.py:115-137 | for every shape, with form-range parameters and d ≥ 0, the degree lies in [0, 1] |
| `Preference.VShapeIRamp` | sad.py:132-133 | the V-Shape I middle branch (d - q)/(r - q) lies in (0, 1] whenever q < d ≤ r |
| `Preference.DegreeAtZero` | sad.py:115-137 | a zero difference gives degree 0 for every shape, Gaussian included |
| `Preference.DegreeMonotone` | sad.py:115-137 | every shape is non-decreasing in the difference for d ≥ 0 |
| `Preference.VShapeIMonotone` | sad.py:129-135 | V-Shape I is non-decreasing in the difference for any thresholds |
| `Preference.GaussianMonotone` | sad.py:136-137 | Gaussian is non-decreasing in the difference for d ≥ 0 |
| `Preference.Reach` | sad.py:118-135 | the saturation point is the largest of 0, q and r: at least each of them and equal to one of them |
| `Preference.DegreeSaturates` | sad.py:116-135 | every shape except Gaussian gives degree 1 once the difference exceeds the larger threshold |
| `Preference.LinearIsStep` | sad.py:116-117 | Linear gives 1 exactly when d > 0 and 0 exactly when d = 0 |
| `Preference.UShapeIsStep` | sad.py:118-119 | U-Shape gives 1 exactly when d > q, and 0 otherwise |
| `Preference.VShapeFacts` | sad.py:120-121 | V-Shape does not depend on q, gives 1 for d ≥ r, and gives d/r below r |
| `Preference.LevelValues` | sad.py:122-128 | Level gives 0 exactly when d ≤ q, 0.5 exactly when q < d ≤ r, and 1 exactly when d exceeds both |
| `Preference.VShapeIFacts` | sad.py:129-135 | with q < r, V-Shape I gives 0 up to q, 1 from r on (boundary included), exactly (d − q)/(r − q) on the ramp q < d ≤ r, and a value strictly between 0 and 1 strictly inside it |
| `Preference.VShapeIExample` | sad.py:129-135 | q = 10, r = 20 gives 0 at d = 10, 0.5 at d = 15 and 1 at d = 25 |
| `Preference.GaussianBounds` | sad.py:136-137 | a Gaussian degree lies in [0, 1] and is 0 at a zero difference; the upper bound is not strict because a floating-point exp can underflow to 0 |
| `Flows.RouteOf` | sad.py:154-157 | a comparison is routed to the positive side only when the scoring supplier scores strictly higher, and to the negative side otherwise, ties included |
| `Flows.Weighted` | sad.py:152-157 | weight × degree, with the degree taken from the scoring supplier's own shape and parameters: a zero weight contributes 0, and with a non-negative weight and a scoring shape other than V-Shape or Gaussian the result lies in [0, weight] |
| `Flows.Share` | sad.py:154-157 | a comparison adds either the whole weighted degree or nothing to a side, nothing to the positive side unless the scoring supplier is strictly higher, and nothing to the negative side when it is |
| `Flows.PairFlowDominated` | sad.py:151-157 | summed over the criteria, a supplier gains no positive flow against one it never beats, and no negative flow against one it beats on every criterion |
| `Flows.FlowUpToDominated` | sad.py:149-157 | the partial flow over the first j suppliers has no positive part for a supplier that beats none of them anywhere, and no negative part for one that beats each of them everywhere |
| `Flows.Flow` | sad.py:146-159 | a supplier that beats nobody on any criterion has positive flow 0, and one that beats every other supplier on every criterion has negative flow 0 |
| `Flows.ComputeFlows` | sad.py:143-160 | the triple loop returns one positive and one negative flow per supplier, each equal to the sum specification `Flow` |
| `Flows.TieGoesNegative` | sad.py:154-157 | a tie adds nothing to the positive side and the full weighted degree to the negative side |
| `Flows.ShareSplits` | sad.py:154-157 | each comparison goes to exactly one side: the two shares add up to the weighted degree |
| `Flows.IdenticalSuppliersNoPositive` | sad.py:149-157 | a supplier gets no positive flow from a supplier with identical scores |
| `Flows.SingleSupplierFlowsZero` | sad.py:146-150 | a supplier is never compared with itself, so a lone supplier has both flows 0 |
| `Flows.TwoSupplierFlows` | sad.py:146-159 | with two suppliers, each flow is exactly the comparison with the other supplier |
| `Flows.WeightedBounds` | sad.py:152-157 | with form-range inputs, weight × degree lies in [0, weight] |
| `Flows.PairFlowBounds` | sad.py:151-157 | comparing one pair of suppliers adds a non-negative amount to each side, and at most the sum of the weights to both together |
| `Flows.FlowUpToBounds` | sad.py:146-157 | after comparing with the first j suppliers, both partial flows are non-negative, and their sum is at most (number of others so far) × Σ weights |
| `Flows.FlowBounds` | sad.py:146-159 | both flows are ≥ 0 and their sum is ≤ (n − 1) · Σ weights |
| `Flows.TieWeighsNothing` | sad.py:152-157 | with form-range parameters, a comparison tied on a criterion has weighted degree 0 |
| `Flows.IdenticalPairFlowZero` | sad.py:151-157 | two suppliers with identical scores add 0 to each other's flows on both sides |
| `Flows.IdenticalFlowUpToZero` | sad.py:149-157 | when all suppliers score alike, every partial flow is 0 |
| `Flows.IdenticalScoresZeroFlows` | sad.py:146-159 | when all suppliers score alike, every positive and negative flow is 0, so every net flow is 0 too |
| `Report.NetFlows` | sad.py:166 | one net flow per supplier, equal to its positive flow minus its negative flow |
| `Report.ResultRows` | sad.py:169-174 | one row per supplier in the given order, carrying its name and its three flows |
| `Report.Run` | sad.py:163-174 | row i names the i-th selected supplier and carries its positive flow, its negative flow, and their difference as the net flow |
| `Report.TwoSupplierFlowValues` | sad.py:143-160 | two suppliers, one criterion of weight 10, Linear, scores 80 and 20: the first has flows (10, 0), the second (0, 10) |
| `Report.TwoSupplierExample` | sad.py:143-174 | two suppliers, one criterion of weight 10, Linear, scores 80 and 20: flows (10, 0) and (0, 10), and the table built from those flows is (A, 10, 0, +10), (B, 0, 10, −10) in the given order |
| `Balance.ShareMirror` | sad.py:152-157 | with shared preference functions, what a gains positively against b equals what b loses negatively against a |
| `Balance.PairFlowMirror` | sad.py:151-157 | the same mirror holds summed over all criteria |
| `Balance.PositiveIsRow` | sad.py:149-155 | a supplier's positive flow is the row sum of the pairwise comparison matrix |
| `Balance.SharedPreferencesMirrored` | sad.py:151-157 | with shared preference functions every pair of suppliers is mirrored: what b loses negatively against a, summed over the criteria, equals what a gains positively against b |
| `Balance.NegativeIsColumn` | sad.py:149-157 | when every pair is mirrored, a supplier's partial negative flow over the first j suppliers is the partial column sum of the same matrix |
| `Balance.NegativeFlowIsColumn` | sad.py:146-159 | when every pair is mirrored, a supplier's negative flow is the column sum of the same matrix |
| `Balance.PositiveTotalByRows` | sad.py:146-159 | the sum of all positive flows is the matrix summed row by row |
| `Balance.NegativeTotalByCols` | sad.py:146-159 | when every pair is mirrored, the sum of all negative flows is the matrix summed column by column |
| `Balance.TotalNetSplits` | sad.py:166 | the sum of the net flows is the sum of the positive flows minus the sum of the negative flows |
| `Balance.SharedPreferencesBalance` | sad.py:143-166 | with one preference function per criterion shared by all suppliers, total positive flow equals total negative flow, so the net flows sum to 0 |
| `Balance.NetColumnIsTotalNet` | sad.py:166-174 | in a table whose net column holds positive minus negative flow per supplier, as `Report.Run` returns, the net column over the first i rows sums to the total net flow of the first i suppliers |
| `Balance.SharedPreferencesTableBalance` | sad.py:143-174 | with shared preference functions, the net column of such a table sums to 0 |
| `Balance.UnbalancedNetFlows` | sad.py:143-166 | with per-supplier preference functions (Linear against U-Shape with q = r = 100, scores 80 and 20, weight 10), the net flows sum to 10, not 0 |
| `Sums.ExchangeSums` | sad.py:146-157 | summing the comparison matrix row by row or column by column gives the same total |

## Left out

- The Streamlit page (sad.py:1-103): selecting criteria and suppliers, weight
  sliders, score and threshold inputs, and function select boxes. This is UI.
  Its ranges appear as the predicates `FromForm` and `InFormRange`, which are
  required only by the lemmas that need them.
- pandas DataFrame construction and display (sad.py:106-108, 169-176) and the
  plotly bar chart (sad.py:178-180). The result table is modelled as a
  sequence of `Row` values.
- Floating-point rounding and summation-order effects. The model uses exact
  `real` arithmetic, with the sums taken in the loops' order.
- The numeric value of `math.exp` (sad.py:137). It is a parameter `exp` of
  the evaluator. No lemma states the Gaussian degree's numeric value, only
  its bounds, its monotonicity and its value at 0 under `ExpLike`.
- Degenerate parameters: V-Shape with `r = 0` and Gaussian with `s = 0`.
  In the source these give degree 1 for d > 0 (through an infinite quotient,
  no exception) and NaN for d = 0. A missing `q`, `r` or `s` key raises
  KeyError. The model requires `Defined` for every (supplier, criterion) pair
  in `WellFormed`, so it does not model the infinite or NaN flows, nor the
  KeyError. With a single supplier the source never evaluates a degree, but
  the model still requires `Defined`.
- GaussianBounds: states the Gaussian degree is in [0, 1]. Under exact reals
  with the true exponential it is strictly below 1. With floating point it
  reaches 1.0 (for instance d = 10, s = 1 rounds, and d = 100, s = 0.1
  underflows), so the model admits exp values of 0.
- Unknown function names, for which the source falls through and returns
  `None`. The closed datatype `Kind` rules these out.
- Supplier identity: suppliers are numbered in selection order, and "not the
  same supplier" is a comparison of numbers. The multiselect keeps names
  distinct, so this matches the source's comparison of names.
- Integer scores: the source's score inputs are integers, the model's are
  reals. The source's value for Linear, U-Shape and Level is the integer 0
  or 1, the model's the real 0.0 or 1.0.

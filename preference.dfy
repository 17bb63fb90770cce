/** The preference-function evaluator of the supplier-selection engine: the six
    PROMETHEE shapes that turn a score difference on one criterion into a
    preference degree, together with the facts the flow computation relies on. */
module Preference {

  /** The six shapes a supplier can choose for each criterion. */
  datatype Kind = Linear | UShape | VShape | Level | VShapeI | Gaussian

  /** The parameter dictionary stored per (supplier, criterion): the entry form
      stores thresholds q and r for U-Shape, V-Shape, Level and V-Shape I, a
      spread s for Gaussian, and nothing for Linear. */
  datatype Params = NoParams | Thresholds(q: real, r: real) | Spread(s: real)

  /** The exponential function used by the Gaussian shape. It is a
      floating-point library routine, so the caller supplies it. */
  type Exp = real -> real

  /** The evaluator finds the parameters its shape reads and does not divide
      by zero: V-Shape divides by r, Gaussian by 2 * s * s. */
  predicate Defined(kind: Kind, p: Params)
  {
    match kind
    case Linear => true
    case UShape => p.Thresholds?
    case Level => p.Thresholds?
    case VShapeI => p.Thresholds?
    case VShape => p.Thresholds? && p.r != 0.0
    case Gaussian => p.Spread? && p.s != 0.0
  }

  /** The ranges the entry form enforces: q and r in [0, 100], s in [0.1, 10]. */
  predicate InFormRange(p: Params)
  {
    match p
    case NoParams => true
    case Thresholds(q, r) => 0.0 <= q <= 100.0 && 0.0 <= r <= 100.0
    case Spread(s) => 0.1 <= s <= 10.0
  }

  /** Parameters that the form can produce and that the evaluator accepts. */
  predicate Admissible(kind: Kind, p: Params)
  {
    Defined(kind, p) && InFormRange(p)
  }

  /** What the Gaussian shape needs of the exponential on non-positive
      arguments: exp(0) = 1, values in [0, 1], and monotone. Zero is allowed
      because a floating-point exponential underflows to 0 below about -745. */
  ghost predicate ExpLike(exp: Exp)
  {
    && exp(0.0) == 1.0
    && (forall x :: x <= 0.0 ==> 0.0 <= exp(x) <= 1.0)
    && (forall x, y :: x <= y <= 0.0 ==> exp(x) <= exp(y))
  }

  /** The argument the Gaussian shape passes to exp: -(d^2) / (2 s^2). */
  function GaussianExponent(d: real, s: real): (e: real)
    requires s != 0.0
    ensures e <= 0.0
    ensures e == 0.0 <==> d == 0.0
  {
    SquareSign(d);
    SquareSign(s);
    NegDiv(Square(d), 2.0 * Square(s));
    -Square(d) / (2.0 * Square(s))
  }

  /** The preference degree of shape `kind` for difference `d`. Whatever
      the thresholds, no shape but Gaussian exceeds 1, the step shapes take
      only the values 0 and 1 (Level also 0.5), and only V-Shape (for a
      negative r) and Gaussian can go below 0. */
  function Degree(kind: Kind, d: real, p: Params, exp: Exp): (g: real)
    requires Defined(kind, p)
    ensures kind != Gaussian ==> g <= 1.0
    ensures kind != Gaussian && kind != VShape ==> 0.0 <= g
    ensures kind == Linear || kind == UShape ==> g == 0.0 || g == 1.0
    ensures kind == Level ==> g == 0.0 || g == 0.5 || g == 1.0
    ensures kind == Gaussian && ExpLike(exp) ==> 0.0 <= g <= 1.0
  {
    match kind
    case Linear => if d > 0.0 then 1.0 else 0.0
    case UShape => if d > p.q then 1.0 else 0.0
    case VShape =>
      // Python's min(d / r, 1) keeps d / r unless 1 is smaller
      var x := d / p.r;
      if 1.0 < x then 1.0 else x
    case Level =>
      if d <= p.q then 0.0
      else if p.q < d <= p.r then 0.5
      else 1.0
    case VShapeI =>
      if d <= p.q then 0.0
      else if p.q < d <= p.r then VShapeIRamp(d, p.q, p.r); (d - p.q) / (p.r - p.q)
      else 1.0
    case Gaussian => 1.0 - exp(GaussianExponent(d, p.s))
  }

  /** The largest threshold of a parameter bundle; every shape but Gaussian
      is fully saturated beyond it. */
  function Reach(p: Params): (m: real)
    ensures m >= 0.0
    ensures p.Thresholds? ==> m >= p.q && m >= p.r
    ensures m == 0.0 || (p.Thresholds? && (m == p.q || m == p.r))
  {
    match p
    case Thresholds(q, r) => if q <= r then (if r < 0.0 then 0.0 else r) else (if q < 0.0 then 0.0 else q)
    case _ => 0.0
  }

  /** Every shape yields a degree in [0, 1] for a non-negative difference. */
  lemma DegreeInUnitInterval(kind: Kind, d: real, p: Params, exp: Exp)
    requires Admissible(kind, p) && ExpLike(exp)
    requires d >= 0.0
    ensures 0.0 <= Degree(kind, d, p, exp) <= 1.0
  {
    match kind
    case VShape =>
      DivFacts(d, p.r);
    case VShapeI =>
      if p.q < d <= p.r {
        VShapeIRamp(d, p.q, p.r);
      }
    case Gaussian =>
      var e := GaussianExponent(d, p.s);
      assert 0.0 <= exp(e) <= 1.0;
    case _ =>
  }

  /** The middle branch of V-Shape I lies in (0, 1]. */
  lemma VShapeIRamp(d: real, q: real, r: real)
    requires q < d <= r
    ensures 0.0 < (d - q) / (r - q) <= 1.0
  {
    DivFacts(d - q, r - q);
  }

  /** A zero difference gives a zero degree, for every shape. */
  lemma DegreeAtZero(kind: Kind, p: Params, exp: Exp)
    requires Admissible(kind, p) && ExpLike(exp)
    ensures Degree(kind, 0.0, p, exp) == 0.0
  {
    if kind == Gaussian {
      assert GaussianExponent(0.0, p.s) == 0.0;
    }
  }

  /** Every shape is monotone non-decreasing in the difference. */
  lemma DegreeMonotone(kind: Kind, d1: real, d2: real, p: Params, exp: Exp)
    requires Admissible(kind, p) && ExpLike(exp)
    requires 0.0 <= d1 <= d2
    ensures Degree(kind, d1, p, exp) <= Degree(kind, d2, p, exp)
  {
    match kind
    case VShape =>
      DivMonotone(d1, d2, p.r);
    case VShapeI =>
      VShapeIMonotone(d1, d2, p.q, p.r, exp);
    case Gaussian =>
      GaussianMonotone(d1, d2, p.s, exp);
    case _ =>
  }

  lemma VShapeIMonotone(d1: real, d2: real, q: real, r: real, exp: Exp)
    requires d1 <= d2
    ensures Degree(VShapeI, d1, Thresholds(q, r), exp) <= Degree(VShapeI, d2, Thresholds(q, r), exp)
  {
    if q < d1 <= r {
      VShapeIRamp(d1, q, r);
      if d2 <= r {
        DivMonotone(d1 - q, d2 - q, r - q);
      }
    } else if q < d2 <= r {
      VShapeIRamp(d2, q, r);
    }
  }

  lemma GaussianMonotone(d1: real, d2: real, s: real, exp: Exp)
    requires ExpLike(exp) && s != 0.0
    requires 0.0 <= d1 <= d2
    ensures Degree(Gaussian, d1, Spread(s), exp) <= Degree(Gaussian, d2, Spread(s), exp)
  {
    SquareMonotone(d1, d2);
    SquareSign(s);
    DivMonotone(Square(d1), Square(d2), 2.0 * Square(s));
    assert -Square(d2) / (2.0 * Square(s)) == -(Square(d2) / (2.0 * Square(s)));
    assert -Square(d1) / (2.0 * Square(s)) == -(Square(d1) / (2.0 * Square(s)));
    var e1, e2 := GaussianExponent(d1, s), GaussianExponent(d2, s);
    assert e2 <= e1 <= 0.0;
    assert exp(e2) <= exp(e1);
  }

  /** Beyond the thresholds every shape except Gaussian gives full preference. */
  lemma DegreeSaturates(kind: Kind, d: real, p: Params, exp: Exp)
    requires Admissible(kind, p) && kind != Gaussian
    requires d > Reach(p)
    ensures Degree(kind, d, p, exp) == 1.0
  {
    if kind == VShape {
      DivFacts(d, p.r);
    }
  }

  /** Linear is a step, not a ramp: full preference exactly when the
      difference is positive, none when it is zero. */
  lemma LinearIsStep(d: real, p: Params, exp: Exp)
    requires d >= 0.0
    ensures Degree(Linear, d, p, exp) == 1.0 <==> d > 0.0
    ensures Degree(Linear, d, p, exp) == 0.0 <==> d == 0.0
  {
  }

  /** U-Shape gives full preference exactly when the difference exceeds q,
      and none otherwise. */
  lemma UShapeIsStep(d: real, q: real, r: real, exp: Exp)
    ensures Degree(UShape, d, Thresholds(q, r), exp) == 1.0 <==> d > q
    ensures Degree(UShape, d, Thresholds(q, r), exp) == 0.0 <==> d <= q
  {
  }

  /** V-Shape ignores q and is fully saturated from r on. */
  lemma VShapeFacts(d: real, q1: real, q2: real, r: real, exp: Exp)
    requires r > 0.0 && d >= 0.0
    ensures Degree(VShape, d, Thresholds(q1, r), exp) == Degree(VShape, d, Thresholds(q2, r), exp)
    ensures d >= r ==> Degree(VShape, d, Thresholds(q1, r), exp) == 1.0
    ensures d < r ==> Degree(VShape, d, Thresholds(q1, r), exp) == d / r
  {
    DivFacts(d, r);
  }

  /** Level takes only the values 0, 0.5 and 1, split at q and r. */
  lemma LevelValues(d: real, q: real, r: real, exp: Exp)
    ensures var v := Degree(Level, d, Thresholds(q, r), exp);
      && (v == 0.0 <==> d <= q)
      && (v == 0.5 <==> q < d <= r)
      && (v == 1.0 <==> q < d && r < d)
  {
  }

  /** V-Shape I with q < r: nothing up to q, full preference from r on, and
      a linear ramp strictly between. */
  lemma VShapeIFacts(d: real, q: real, r: real, exp: Exp)
    requires q < r
    ensures d <= q ==> Degree(VShapeI, d, Thresholds(q, r), exp) == 0.0
    ensures d >= r ==> Degree(VShapeI, d, Thresholds(q, r), exp) == 1.0
    ensures q < d < r ==> 0.0 < Degree(VShapeI, d, Thresholds(q, r), exp) < 1.0
    ensures q < d <= r ==> Degree(VShapeI, d, Thresholds(q, r), exp) == (d - q) / (r - q)
  {
    if q < d < r {
      DivFacts(d - q, r - q);
    } else if d == r {
      DivFacts(d - q, r - q);
    }
  }

  /** The worked V-Shape I values for q = 10, r = 20. */
  lemma VShapeIExample(exp: Exp)
    ensures Degree(VShapeI, 10.0, Thresholds(10.0, 20.0), exp) == 0.0
    ensures Degree(VShapeI, 15.0, Thresholds(10.0, 20.0), exp) == 0.5
    ensures Degree(VShapeI, 25.0, Thresholds(10.0, 20.0), exp) == 1.0
  {
  }

  /** The Gaussian degree lies in [0, 1] for any difference and is 0 at a
      zero difference. It reaches 1 when exp underflows to 0. */
  lemma GaussianBounds(d: real, s: real, exp: Exp)
    requires ExpLike(exp) && s != 0.0
    ensures 0.0 <= Degree(Gaussian, d, Spread(s), exp) <= 1.0
    ensures d == 0.0 ==> Degree(Gaussian, d, Spread(s), exp) == 0.0
  {
    var e := GaussianExponent(d, s);
    assert 0.0 <= exp(e) <= 1.0;
  }

  // Facts of real arithmetic that the solver does not find unaided. Products
  // are wrapped in functions so that facts about them carry across calls.

  /** x ** 2 */
  function Square(x: real): real
  {
    x * x
  }

  function Mul(a: real, b: real): real
  {
    a * b
  }

  lemma MulPos(a: real, b: real)
    requires a > 0.0 && b > 0.0
    ensures Mul(a, b) > 0.0
  {
  }

  lemma MulNonNegative(a: real, b: real)
    requires a >= 0.0 && b >= 0.0
    ensures Mul(a, b) >= 0.0
  {
    if a > 0.0 && b > 0.0 {
      MulPos(a, b);
    }
  }

  lemma MulStrict(a: real, b: real, z: real)
    requires a < b && z > 0.0
    ensures Mul(a, z) < Mul(b, z)
  {
    MulPos(b - a, z);
    calc {
      Mul(b, z) - Mul(a, z);
      b * z - a * z;
      (b - a) * z;
      Mul(b - a, z);
    }
  }

  lemma SquareSign(x: real)
    ensures Square(x) >= 0.0
    ensures Square(x) == 0.0 <==> x == 0.0
  {
    if x > 0.0 {
      MulPos(x, x);
      assert Mul(x, x) == Square(x);
    } else if x < 0.0 {
      MulPos(-x, -x);
      assert Mul(-x, -x) == Square(x);
    }
  }

  lemma SquareMonotone(x: real, y: real)
    requires 0.0 <= x <= y
    ensures Square(x) <= Square(y)
  {
    if x < y {
      MulStrict(x, y, y);
      if x > 0.0 {
        MulStrict(x, y, x);
        assert Mul(y, x) == Mul(x, y);
      }
      assert Mul(x, x) == Square(x);
      assert Mul(y, y) == Square(y);
    }
  }

  /** Dividing by a positive number keeps the sign and the comparison with 1. */
  lemma DivFacts(x: real, z: real)
    requires z > 0.0
    ensures x >= 0.0 ==> x / z >= 0.0
    ensures x > 0.0 ==> x / z > 0.0
    ensures x >= z ==> x / z >= 1.0
    ensures x < z ==> x / z < 1.0
    ensures x <= z ==> x / z <= 1.0
  {
    var t := x / z;
    assert Mul(t, z) == x;
    if t < 0.0 { MulStrict(t, 0.0, z); }
    if t < 1.0 { MulStrict(t, 1.0, z); }
    if t > 1.0 { MulStrict(1.0, t, z); }
  }

  lemma NegDiv(num: real, den: real)
    requires num >= 0.0 && den > 0.0
    ensures -num / den <= 0.0
    ensures -num / den == 0.0 <==> num == 0.0
  {
    DivFacts(num, den);
    assert -num / den == -(num / den);
  }

  lemma DivMonotone(x: real, y: real, z: real)
    requires x <= y && z > 0.0
    ensures x / z <= y / z
  {
    assert y / z - x / z == (y - x) / z;
    DivFacts(y - x, z);
  }
}

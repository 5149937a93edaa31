/** The correlation coefficient of the session analysis, over exact arithmetic
    (scripts/analyze_sessions.py: `_pearson`). */
module Pearson {

  function Total(x: seq<real>): real {
    if x == [] then 0.0 else Total(x[..|x| - 1]) + x[|x| - 1]
  }

  function Times(a: real, b: real): real {
    a * b
  }

  function Products(x: seq<real>, y: seq<real>): real
    requires |x| == |y|
  {
    if x == [] then 0.0 else Products(x[..|x| - 1], y[..|y| - 1]) + Times(x[|x| - 1], y[|y| - 1])
  }

  function Gap(n: real, product: real, u: real, v: real): real {
    n * product - u * v
  }

  /** The numerator, `n * sum_xy - sum_x * sum_y`. */
  function Numerator(x: seq<real>, y: seq<real>): real
    requires |x| == |y|
  {
    Gap(|x| as real, Products(x, y), Total(x), Total(y))
  }

  /** A factor under the root, `n * sum_x2 - sum_x * sum_x`. */
  function Spread(x: seq<real>): real {
    Numerator(x, x)
  }

  /** The coefficient, given the square root of `Spread(x) * Spread(y)`. */
  function Coefficient(x: seq<real>, y: seq<real>, root: real): real
    requires |x| == |y|
  {
    if |x| < 2 || root == 0.0 then 0.0 else Numerator(x, y) / root
  }

  // Arithmetic. Products are passed under a name: the solver loses track of `a * a > 0.0`.

  lemma Positive(a: real, b: real, product: real)
    requires a > 0.0 && b > 0.0 && product == a * b
    ensures product > 0.0
  {
  }

  lemma SquarePositive(a: real, square: real)
    requires a != 0.0 && square == a * a
    ensures square > 0.0
  {
    if a > 0.0 {
      Positive(a, a, square);
    } else {
      assert -a * -a == square;
      Positive(-a, -a, square);
    }
  }

  function Square(a: real): (r: real)
    ensures r >= 0.0
    ensures r == 0.0 <==> a == 0.0
  {
    if a == 0.0 then 0.0
    else
      var square := a * a;
      SquarePositive(a, square);
      square
  }

  ghost predicate IsRoot(root: real, square: real) {
    root >= 0.0 && Square(root) == square
  }

  predicate Constant(x: seq<real>) {
    forall i :: 0 <= i < |x| ==> x[i] == x[0]
  }

  lemma NonNegativeProduct(a: real, b: real)
    requires a >= 0.0 && b >= 0.0
    ensures a * b >= 0.0
    ensures a * b == 0.0 <==> a == 0.0 || b == 0.0
  {
    if a > 0.0 && b > 0.0 { Positive(a, b, a * b); }
  }

  lemma SquareIs(a: real)
    ensures Square(a) == a * a && Square(-a) == Square(a)
  {
  }

  lemma LargerSquare(a: real, b: real)
    requires 0.0 <= a < b
    ensures Square(a) < Square(b)
  {
    var product := (b - a) * (b + a);
    Positive(b - a, b + a, product);
    assert product == b * b - a * a;
  }

  lemma UniqueRoot(root: real, a: real)
    requires IsRoot(root, Square(a)) && a >= 0.0
    ensures root == a
  {
    if root < a { LargerSquare(root, a); }
    if root > a { LargerSquare(a, root); }
  }

  lemma QuotientInRange(n: real, root: real)
    requires root > 0.0 && Square(n) <= Square(root)
    ensures -1.0 <= n / root <= 1.0
  {
    var q, size := n / root, if n >= 0.0 then n else -n;
    if size > root { LargerSquare(root, size); }
    SquareIs(n);
    assert q * root == n;
    if q > 1.0 { Positive(q - 1.0, root, n - root); }
    if q < -1.0 { Positive(-1.0 - q, root, -root - n); }
  }

  lemma Distributes(k: real, p: real, q: real)
    ensures k * (p + q) == k * p + k * q
  {
  }

  /** `value` is the given combination of three quantities. */
  ghost predicate Form(a: real, p: real, b: real, q: real, c: real, r: real, value: real) {
    value == a * p + b * q + c * r
  }

  /** `value` is the quadratic form of `p`, `q` and `r` in the weights `s` and `t`. */
  ghost predicate Quadratic(s: real, t: real, p: real, q: real, r: real, value: real) {
    Form(s * s, p, 2.0 * (s * t), q, t * t, r, value)
  }

  lemma FormStep(a: real, p: real, b: real, q: real, c: real, r: real, value: real, dp: real, dq: real, dr: real,
                 more: real, p': real, q': real, r': real, value': real)
    requires Form(a, p, b, q, c, r, value) && Form(a, dp, b, dq, c, dr, more)
    requires p' == p + dp && q' == q + dq && r' == r + dr && value' == value + more
    ensures Form(a, p', b, q', c, r', value')
  {
    Distributes(a, p, dp);
    Distributes(b, q, dq);
    Distributes(c, r, dr);
  }

  lemma SquareOfForm(s: real, a: real, t: real, b: real, z: real)
    requires Form(s, a, t, b, 0.0, 0.0, z)
    ensures Quadratic(s, t, a * a, a * b, b * b, z * z)
  {
    assert z == s * a + t * b;
    assert (s * a + t * b) * (s * a + t * b) == s * s * (a * a) + 2.0 * (s * t) * (a * b) + t * t * (b * b);
  }

  lemma TimesForm(c: real, s: real, a: real, t: real, b: real, z: real)
    requires Form(s, a, t, b, 0.0, 0.0, z)
    ensures Form(s, c * a, t, c * b, 0.0, 0.0, c * z)
  {
    assert z == s * a + t * b;
    assert c * (s * a + t * b) == s * (c * a) + t * (c * b);
  }

  lemma Term(n: real, a: real, p: real, u: real)
    ensures n * (a * p) - a * u == a * (n * p - u)
  {
  }

  lemma FormDifference(n: real, a: real, b: real, c: real, p: real, q: real, r: real, square: real,
                       u: real, v: real, w: real, sum: real)
    requires Form(a, p, b, q, c, r, square) && Form(a, u, b, v, c, w, sum)
    ensures Form(a, n * p - u, b, n * q - v, c, n * r - w, n * square - sum)
  {
    Term(n, a, p, u);
    Term(n, b, q, v);
    Term(n, c, r, w);
    Distributes(n, a * p + b * q, c * r);
    Distributes(n, a * p, b * q);
  }

  // The spread of a list.

  /** The squared distance of every element from `a`. */
  function Distance(x: seq<real>, a: real): (d: real)
    ensures d >= 0.0
  {
    if x == [] then 0.0 else Distance(x[..|x| - 1], a) + Square(x[|x| - 1] - a)
  }

  function Expansion(n: real, p: real, t: real, a: real): real {
    p - 2.0 * a * t + n * (a * a)
  }

  lemma DistanceStep(n: real, p: real, t: real, last: real, a: real, d: real, n': real, p': real, t': real, d': real)
    requires n' == n + 1.0 && p' == p + Times(last, last) && t' == t + last && d' == d + Square(last - a)
    requires d == Expansion(n, p, t, a)
    ensures d' == Expansion(n', p', t', a)
  {
    SquareIs(last - a);
    assert (last - a) * (last - a) == last * last - 2.0 * a * last + a * a;
  }

  lemma {:induction false} DistanceExpands(x: seq<real>, a: real)
    ensures Distance(x, a) == Expansion(|x| as real, Products(x, x), Total(x), a)
  {
    if x != [] {
      var front, last := x[..|x| - 1], x[|x| - 1];
      DistanceExpands(front, a);
      DistanceStep(|front| as real, Products(front, front), Total(front), last, a, Distance(front, a),
                   |x| as real, Products(x, x), Total(x), Distance(x, a));
    }
  }

  lemma {:induction false} DistanceIsZeroIff(x: seq<real>, a: real)
    ensures Distance(x, a) == 0.0 <==> forall i :: 0 <= i < |x| ==> x[i] == a
  {
    if x != [] {
      var front, last := x[..|x| - 1], x[|x| - 1];
      DistanceIsZeroIff(front, a);
      assert Square(last - a) == 0.0 <==> last == a;
      assert forall i :: 0 <= i < |front| ==> front[i] == x[i];
    }
  }

  lemma SpreadStep(n: real, p: real, t: real, last: real, n': real, p': real, t': real, d: real)
    requires n' == n + 1.0 && p' == p + Times(last, last) && t' == t + last
    requires d == Expansion(n, p, t, last)
    ensures Gap(n', p', t', t') == Gap(n, p, t, t) + d
  {
    assert (n + 1.0) * (p + last * last) == n * p + p + n * (last * last) + last * last;
    assert (t + last) * (t + last) == t * t + 2.0 * last * t + last * last;
  }

  lemma SpreadGrows(x: seq<real>)
    requires x != []
    ensures Spread(x) == Spread(x[..|x| - 1]) + Distance(x[..|x| - 1], x[|x| - 1])
  {
    var front, last := x[..|x| - 1], x[|x| - 1];
    DistanceExpands(front, last);
    SpreadStep(|front| as real, Products(front, front), Total(front), last,
               |x| as real, Products(x, x), Total(x), Distance(front, last));
  }

  /** Both factors under the root are non-negative, and zero exactly for a constant list. */
  lemma {:induction false} SpreadIsZeroIffConstant(x: seq<real>)
    ensures Spread(x) >= 0.0
    ensures Spread(x) == 0.0 <==> Constant(x)
  {
    if x != [] {
      var front, last := x[..|x| - 1], x[|x| - 1];
      SpreadIsZeroIffConstant(front);
      SpreadGrows(x);
      DistanceIsZeroIff(front, last);
      assert forall i :: 0 <= i < |front| ==> front[i] == x[i];
      if front != [] { assert front[0] == x[0]; }
    }
  }

  // Combinations of two lists.

  /** `s` times `x` plus `t` times `y`, element by element. */
  function Combined(s: real, x: seq<real>, t: real, y: seq<real>): (z: seq<real>)
    requires |x| == |y|
    ensures |z| == |x|
  {
    if x == [] then [] else Combined(s, x[..|x| - 1], t, y[..|y| - 1]) + [s * x[|x| - 1] + t * y[|y| - 1]]
  }

  lemma LastCombined(s: real, x: seq<real>, t: real, y: seq<real>)
    requires |x| == |y| && x != []
    ensures var z := Combined(s, x, t, y);
            && z[..|z| - 1] == Combined(s, x[..|x| - 1], t, y[..|y| - 1])
            && Form(s, x[|x| - 1], t, y[|y| - 1], 0.0, 0.0, z[|z| - 1])
  {
  }

  lemma {:induction false} CombinedTotal(s: real, x: seq<real>, t: real, y: seq<real>)
    requires |x| == |y|
    ensures Form(s, Total(x), t, Total(y), 0.0, 0.0, Total(Combined(s, x, t, y)))
  {
    if x != [] {
      var x', y', z := x[..|x| - 1], y[..|y| - 1], Combined(s, x, t, y);
      CombinedTotal(s, x', t, y');
      LastCombined(s, x, t, y);
      FormStep(s, Total(x'), t, Total(y'), 0.0, 0.0, Total(z[..|z| - 1]), x[|x| - 1], y[|y| - 1], 0.0, z[|z| - 1],
               Total(x), Total(y), 0.0, Total(z));
    }
  }

  lemma SquaresStep(s: real, a: real, t: real, b: real, last: real,
                    p: real, q: real, r: real, value: real, p': real, q': real, r': real, value': real)
    requires Form(s, a, t, b, 0.0, 0.0, last) && Quadratic(s, t, p, q, r, value)
    requires p' == p + Times(a, a) && q' == q + Times(a, b) && r' == r + Times(b, b)
    requires value' == value + Times(last, last)
    ensures Quadratic(s, t, p', q', r', value')
  {
    SquareOfForm(s, a, t, b, last);
    FormStep(s * s, p, 2.0 * (s * t), q, t * t, r, value, a * a, a * b, b * b, last * last, p', q', r', value');
  }

  lemma {:induction false} CombinedSquares(s: real, x: seq<real>, t: real, y: seq<real>)
    requires |x| == |y|
    ensures var z := Combined(s, x, t, y);
            Quadratic(s, t, Products(x, x), Products(x, y), Products(y, y), Products(z, z))
  {
    if x != [] {
      var z, a, b := Combined(s, x, t, y), x[|x| - 1], y[|y| - 1];
      var x', y', z' := x[..|x| - 1], y[..|y| - 1], z[..|z| - 1];
      CombinedSquares(s, x', t, y');
      LastCombined(s, x, t, y);
      SquaresStep(s, a, t, b, z[|z| - 1], Products(x', x'), Products(x', y'), Products(y', y'), Products(z', z'),
                  Products(x, x), Products(x, y), Products(y, y), Products(z, z));
    }
  }

  lemma ProductsStep(c: real, s: real, a: real, t: real, b: real, last: real,
                     p: real, q: real, value: real, p': real, q': real, value': real)
    requires Form(s, a, t, b, 0.0, 0.0, last) && Form(s, p, t, q, 0.0, 0.0, value)
    requires p' == p + Times(c, a) && q' == q + Times(c, b) && value' == value + Times(c, last)
    ensures Form(s, p', t, q', 0.0, 0.0, value')
  {
    TimesForm(c, s, a, t, b, last);
    FormStep(s, p, t, q, 0.0, 0.0, value, c * a, c * b, 0.0, c * last, p', q', 0.0, value');
  }

  lemma {:induction false} CombinedProducts(w: seq<real>, s: real, x: seq<real>, t: real, y: seq<real>)
    requires |w| == |x| == |y|
    ensures Form(s, Products(w, x), t, Products(w, y), 0.0, 0.0, Products(w, Combined(s, x, t, y)))
  {
    if x != [] {
      var z, c, a, b := Combined(s, x, t, y), w[|w| - 1], x[|x| - 1], y[|y| - 1];
      var w', x', y', z' := w[..|w| - 1], x[..|x| - 1], y[..|y| - 1], z[..|z| - 1];
      CombinedProducts(w', s, x', t, y');
      LastCombined(s, x, t, y);
      ProductsStep(c, s, a, t, b, z[|z| - 1], Products(w', x'), Products(w', y'), Products(w', z'),
                   Products(w, x), Products(w, y), Products(w, z));
    }
  }

  lemma GapOfForm(s: real, t: real, n: real, p: real, q: real, r: real, u: real, v: real, square: real, sum: real)
    requires Quadratic(s, t, p, q, r, square) && Form(s, u, t, v, 0.0, 0.0, sum)
    ensures Quadratic(s, t, Gap(n, p, u, u), Gap(n, q, u, v), Gap(n, r, v, v), Gap(n, square, sum, sum))
  {
    SquareOfForm(s, u, t, v, sum);
    FormDifference(n, s * s, 2.0 * (s * t), t * t, p, q, r, square, u * u, u * v, v * v, sum * sum);
  }

  /** The spread of a combination, as a quadratic form in its two weights. */
  lemma CombinedSpread(s: real, x: seq<real>, t: real, y: seq<real>)
    requires |x| == |y|
    ensures Quadratic(s, t, Spread(x), Numerator(x, y), Spread(y), Spread(Combined(s, x, t, y)))
  {
    var z := Combined(s, x, t, y);
    CombinedTotal(s, x, t, y);
    CombinedSquares(s, x, t, y);
    GapOfForm(s, t, |x| as real, Products(x, x), Products(x, y), Products(y, y), Total(x), Total(y), Products(z, z),
              Total(z));
  }

  lemma GapOfProducts(n: real, s: real, t: real, p: real, q: real, u: real, v: real, product: real, sum: real)
    requires Form(s, p, t, q, 0.0, 0.0, product) && Form(s, u, t, v, 0.0, 0.0, sum)
    ensures Form(s, Gap(n, p, u, u), t, Gap(n, q, u, v), 0.0, 0.0, Gap(n, product, u, sum))
  {
    TimesForm(u, s, u, t, v, sum);
    FormDifference(n, s, t, 0.0, p, q, 0.0, product, u * u, u * v, 0.0, u * sum);
  }

  lemma CombinedNumerator(x: seq<real>, scale: real, shift: real, y: seq<real>)
    requires |x| == |y|
    ensures Form(scale, Spread(x), shift, Numerator(x, y), 0.0, 0.0, Numerator(x, Combined(scale, x, shift, y)))
  {
    var z := Combined(scale, x, shift, y);
    CombinedProducts(x, scale, x, shift, y);
    CombinedTotal(scale, x, shift, y);
    GapOfProducts(|x| as real, scale, shift, Products(x, x), Products(x, y), Total(x), Total(y), Products(x, z),
                  Total(z));
  }

  lemma WeightedSpread(s: real, x: seq<real>, t: real, y: seq<real>) returns (spread: real)
    requires |x| == |y|
    ensures Quadratic(s, t, Spread(x), Numerator(x, y), Spread(y), spread) && spread >= 0.0
  {
    spread := Spread(Combined(s, x, t, y));
    CombinedSpread(s, x, t, y);
    SpreadIsZeroIffConstant(Combined(s, x, t, y));
  }

  lemma NegativeForm(a: real, n: real, b: real, t: real, value: real)
    requires a >= 0.0 && n != 0.0 && b == 0.0 && t == -(a + 1.0)
    requires Quadratic(n, t, a, n, b, value)
    ensures value < 0.0
  {
    var square := n * n;
    SquarePositive(n, square);
    assert value == n * n * a + 2.0 * (n * t) * n;
    assert -value == square * (a + 2.0);
    Positive(square, a + 2.0, -value);
  }

  lemma FlatDiscriminant(a: real, n: real, b: real, t: real, value: real)
    requires a >= 0.0 && b == 0.0 && t == -(a + 1.0) && value >= 0.0
    requires Quadratic(n, t, a, n, b, value)
    ensures n == 0.0
  {
    if n != 0.0 { NegativeForm(a, n, b, t, value); }
  }

  // The range of the coefficient.

  lemma FlatCase(x: seq<real>, y: seq<real>)
    requires |x| == |y| && Spread(y) == 0.0
    ensures Numerator(x, y) == 0.0
  {
    SpreadIsZeroIffConstant(x);
    var t := -(Spread(x) + 1.0);
    var spread := WeightedSpread(Numerator(x, y), x, t, y);
    FlatDiscriminant(Spread(x), Numerator(x, y), Spread(y), t, spread);
  }

  lemma Discriminant(a: real, n: real, b: real, t: real, value: real)
    requires b > 0.0 && t == -n && Quadratic(b, t, a, n, b, value) && value >= 0.0
    ensures Square(n) <= a * b
  {
    SquareIs(n);
    var excess := n * n - a * b;
    assert -value == excess * b;
    if excess > 0.0 { Positive(excess, b, -value); }
  }

  lemma SteepCase(x: seq<real>, y: seq<real>)
    requires |x| == |y| && Spread(y) > 0.0
    ensures Square(Numerator(x, y)) <= Spread(x) * Spread(y)
  {
    hide *;
    var spread := WeightedSpread(Spread(y), x, -Numerator(x, y), y);
    Discriminant(Spread(x), Numerator(x, y), Spread(y), -Numerator(x, y), spread);
  }

  /** The inequality behind the coefficient's range, for lists of any length. */
  lemma CauchySchwarz(x: seq<real>, y: seq<real>)
    requires |x| == |y|
    ensures Square(Numerator(x, y)) <= Spread(x) * Spread(y)
  {
    SpreadIsZeroIffConstant(y);
    if Spread(y) > 0.0 { SteepCase(x, y); } else { FlatCase(x, y); }
  }

  /** The root is always defined, the denominator vanishes exactly when one list is constant, and
      then the numerator has vanished too. */
  lemma RootIsDefined(x: seq<real>, y: seq<real>)
    requires |x| == |y|
    ensures Spread(x) * Spread(y) >= 0.0
    ensures Spread(x) * Spread(y) == 0.0 <==> Constant(x) || Constant(y)
    ensures Constant(x) || Constant(y) ==> Numerator(x, y) == 0.0
  {
    SpreadIsZeroIffConstant(x);
    SpreadIsZeroIffConstant(y);
    CauchySchwarz(x, y);
    NonNegativeProduct(Spread(x), Spread(y));
  }

  /** The coefficient lies in [-1, 1], and is zero exactly without a linear relation to report. */
  lemma CoefficientInRange(x: seq<real>, y: seq<real>, root: real)
    requires |x| == |y| && IsRoot(root, Spread(x) * Spread(y))
    ensures -1.0 <= Coefficient(x, y, root) <= 1.0
    ensures Coefficient(x, y, root) == 0.0 <==> |x| < 2 || Numerator(x, y) == 0.0
  {
    RootIsDefined(x, y);
    CauchySchwarz(x, y);
    if root > 0.0 {
      QuotientInRange(Numerator(x, y), root);
      assert Numerator(x, y) / root * root == Numerator(x, y);
    }
  }

  lemma Perfect(a: real, scale: real, shift: real, b: real, n: real, root: real)
    requires a > 0.0 && scale != 0.0 && IsRoot(root, a * b)
    requires Quadratic(scale, shift, a, 0.0, 0.0, b)
    requires Form(scale, a, shift, 0.0, 0.0, 0.0, n)
    ensures root > 0.0 && n / root == if scale > 0.0 then 1.0 else -1.0
  {
    var size := if scale > 0.0 then n else -n;
    Positive(if scale > 0.0 then scale else -scale, a, size);
    SquareIs(size);
    assert a * b == n * n by { assert a * (scale * scale * a) == scale * a * (scale * a); }
    assert size * size == n * n;
    UniqueRoot(root, size);
  }

  /** Scaling and shifting a list is perfect correlation with it, positive or negative. */
  lemma LinearIsPerfect(x: seq<real>, scale: real, ones: seq<real>, shift: real, root: real)
    requires |x| == |ones| >= 2 && (forall i :: 0 <= i < |ones| ==> ones[i] == 1.0)
    requires scale != 0.0 && !Constant(x)
    requires IsRoot(root, Spread(x) * Spread(Combined(scale, x, shift, ones)))
    ensures Coefficient(x, Combined(scale, x, shift, ones), root) == if scale > 0.0 then 1.0 else -1.0
  {
    RootIsDefined(x, ones);
    SpreadIsZeroIffConstant(x);
    SpreadIsZeroIffConstant(ones);
    CombinedSpread(scale, x, shift, ones);
    CombinedNumerator(x, scale, shift, ones);
    var y := Combined(scale, x, shift, ones);
    Perfect(Spread(x), scale, shift, Spread(y), Numerator(x, y), root);
  }
}

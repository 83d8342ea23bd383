/** Identity vectors: combination, normalisation, cosine distance and the EWMA blend. */
module Vectors {
  import opened Prelude

  type Vector = seq<real>

  /** The sum of the products of components, up to the end of the shorter vector. */
  function Dot(u: Vector, v: Vector): real {
    if u == [] || v == [] then 0.0
    else u[0] * v[0] + Dot(u[1..], v[1..])
  }

  function Distance(u: Vector, v: Vector): real {
    1.0 - Dot(u, v)
  }

  /** `x` times `u` plus `y` times `v`, component by component. */
  function Combine(x: real, u: Vector, y: real, v: Vector): (w: Vector)
    requires |u| == |v|
    ensures |w| == |u|
  {
    seq(|u|, i requires 0 <= i < |u| => x * u[i] + y * v[i])
  }

  function Divide(u: Vector, n: real): (w: Vector)
    requires n != 0.0
    ensures |w| == |u|
  {
    seq(|u|, i requires 0 <= i < |u| => u[i] / n)
  }

  ghost predicate Unit(u: Vector) {
    Dot(u, u) == 1.0
  }

  ghost predicate NonNegativeVector(u: Vector) {
    forall i | 0 <= i < |u| :: u[i] >= 0.0
  }

  /** What the standard library's square root is relied on for. */
  ghost predicate SquareRoot(sqrt: real -> real) {
    forall x | x >= 0.0 :: sqrt(x) >= 0.0 && sqrt(x) * sqrt(x) == x
  }

  // ---- the dot product ---------------------------------------------------

  lemma {:induction false} DotSymmetric(u: Vector, v: Vector)
    ensures Dot(u, v) == Dot(v, u)
  {
    if u != [] && v != [] {
      DotSymmetric(u[1..], v[1..]);
    }
  }

  /** Both vectors one component longer; and what is past the shorter one does not count. */
  lemma {:induction false} DotGrows(u: Vector, x: real, v: Vector, y: real, xy: real)
    requires |u| == |v| && xy == x * y
    ensures Dot(u + [x], v + [y]) == Dot(u, v) + xy
    ensures Dot(u, v + [y]) == Dot(u, v) == Dot(u + [x], v)
  {
    if u != [] {
      DotGrows(u[1..], x, v[1..], y, xy);
      assert (u + [x])[1..] == u[1..] + [x] && (v + [y])[1..] == v[1..] + [y];
    }
  }

  lemma {:induction false} DotNonNegative(u: Vector, v: Vector)
    requires NonNegativeVector(u) && NonNegativeVector(v)
    ensures Dot(u, v) >= 0.0
  {
    if u != [] && v != [] {
      DotNonNegative(u[1..], v[1..]);
      NonNegative(u[0], v[0]);
    }
  }

  /** A vector's square is never negative, and zero only when every component is. */
  lemma {:induction false} SquareNonNegative(u: Vector)
    ensures Dot(u, u) >= 0.0
    ensures Dot(u, u) == 0.0 <==> forall i | 0 <= i < |u| :: u[i] == 0.0
  {
    if u != [] {
      SquareNonNegative(u[1..]);
      AddProduct(u[0], u[0], Dot(u[1..], u[1..]), Dot(u, u));
      assert u == [u[0]] + u[1..];
    }
  }

  /** Adding the product of two numbers of the same sign; stated for two variables, used for squares. */
  lemma AddProduct(x: real, y: real, rest: real, sum: real)
    requires sum == x * y + rest
    ensures (x > 0.0 && y > 0.0) || (x < 0.0 && y < 0.0) ==> sum > rest
    ensures x == 0.0 || y == 0.0 ==> sum == rest
  {
    if x > 0.0 && y > 0.0 {
      Positive(x, y);
    } else if x < 0.0 && y < 0.0 {
      Positive(-x, -y);
    }
  }

  lemma Positive(x: real, y: real)
    requires x > 0.0 && y > 0.0
    ensures x * y > 0.0
  {
  }

  /** The dot product is linear in its first argument. */
  lemma DotCombine(x: real, u: Vector, y: real, v: Vector, w: Vector, du: real, dv: real)
    requires |u| == |v| == |w| && du == Dot(u, w) && dv == Dot(v, w)
    ensures Dot(Combine(x, u, y, v), w) == x * du + y * dv
  {
    var c := Combine(x, u, y, v);
    DotOfCombined(x, u, y, v, w, c, du, dv, Dot(c, w));
  }

  lemma {:induction false} DotOfCombined(x: real, u: Vector, y: real, v: Vector, w: Vector, c: Vector,
                                         du: real, dv: real, dc: real)
    requires |u| == |v| == |w| && c == Combine(x, u, y, v)
    requires du == Dot(u, w) && dv == Dot(v, w) && dc == Dot(c, w)
    ensures dc == x * du + y * dv
  {
    if u != [] {
      CombineTail(x, u, y, v);
      var du', dv', dc' := Dot(u[1..], w[1..]), Dot(v[1..], w[1..]), Dot(c[1..], w[1..]);
      DotOfCombined(x, u[1..], y, v[1..], w[1..], c[1..], du', dv', dc');
      CombinedHead(x, u, y, v, w, c, u[0], v[0], w[0], c[0], du', dv', dc', du, dv, dc);
    }
  }

  lemma CombinedHead(x: real, u: Vector, y: real, v: Vector, w: Vector, c: Vector,
                     a: real, b: real, h: real, z: real,
                     du': real, dv': real, dc': real, du: real, dv: real, dc: real)
    requires |u| == |v| == |w| > 0 && c == Combine(x, u, y, v)
    requires a == u[0] && b == v[0] && h == w[0] && z == c[0]
    requires du' == Dot(u[1..], w[1..]) && dv' == Dot(v[1..], w[1..]) && dc' == Dot(c[1..], w[1..])
    requires du == Dot(u, w) && dv == Dot(v, w) && dc == Dot(c, w) && dc' == x * du' + y * dv'
    ensures dc == x * du + y * dv
  {
    CombinedAt(x, u, y, v, c, 0, a, b);
    DotHeads(u, v, w, c, a, b, h, z, du', dv', dc', du, dv, dc);
    CombineTerm(x, a, y, b, h, du', dv', du, dv, z, dc', dc);
  }

  lemma CombinedAt(x: real, u: Vector, y: real, v: Vector, w: Vector, i: nat, a: real, b: real)
    requires |u| == |v| && w == Combine(x, u, y, v) && i < |u| && a == u[i] && b == v[i]
    ensures w[i] == x * a + y * b
  {
  }

  lemma DotHeads(u: Vector, v: Vector, w: Vector, c: Vector, a: real, b: real, h: real, z: real,
                 du': real, dv': real, dc': real, du: real, dv: real, dc: real)
    requires |u| == |v| == |w| == |c| > 0 && a == u[0] && b == v[0] && h == w[0] && z == c[0]
    requires du' == Dot(u[1..], w[1..]) && dv' == Dot(v[1..], w[1..]) && dc' == Dot(c[1..], w[1..])
    requires du == Dot(u, w) && dv == Dot(v, w) && dc == Dot(c, w)
    ensures du == a * h + du' && dv == b * h + dv' && dc == z * h + dc'
  {
    DotHead(u, w, a, h, du', du);
    DotHead(v, w, b, h, dv', dv);
    DotHead(c, w, z, h, dc', dc);
  }

  lemma DotHead(u: Vector, w: Vector, a: real, b: real, rest: real, d: real)
    requires u != [] && w != [] && a == u[0] && b == w[0] && rest == Dot(u[1..], w[1..]) && d == Dot(u, w)
    ensures d == a * b + rest
  {
  }

  lemma CombineTail(x: real, u: Vector, y: real, v: Vector)
    requires |u| == |v| > 0
    ensures Combine(x, u, y, v)[1..] == Combine(x, u[1..], y, v[1..])
  {
    var c, c' := Combine(x, u, y, v), Combine(x, u[1..], y, v[1..]);
    forall i | 0 <= i < |c'| ensures c[1..][i] == c'[i] {
      assert u[1..][i] == u[i + 1] && v[1..][i] == v[i + 1];
    }
  }

  lemma CombineTerm(x: real, a: real, y: real, b: real, c: real, du': real, dv': real, du: real, dv: real, z: real,
                    dc': real, dc: real)
    requires du == a * c + du' && dv == b * c + dv' && z == x * a + y * b
    requires dc == z * c + dc' && dc' == x * du' + y * dv'
    ensures dc == x * du + y * dv
  {
  }

  lemma {:induction false} DotDivide(u: Vector, n: real, w: Vector, d: real)
    requires n != 0.0 && d == Dot(u, w)
    ensures Dot(Divide(u, n), w) == d / n
  {
    if u != [] && w != [] {
      var q := Divide(u, n);
      assert q[1..] == Divide(u[1..], n);
      var d', e' := Dot(u[1..], w[1..]), Dot(q[1..], w[1..]);
      DotDivide(u[1..], n, w[1..], d');
      DotHead(u, w, u[0], w[0], d', d);
      DotHead(q, w, q[0], w[0], e', Dot(q, w));
      DivideTerm(u[0], w[0], n, q[0], d', d, e', Dot(q, w));
    }
  }

  lemma DivideTerm(a: real, c: real, n: real, q: real, d': real, d: real, e': real, e: real)
    requires n != 0.0 && q == a / n && d == a * c + d' && e' == d' / n && e == q * c + e'
    ensures e == d / n
  {
  }

  /** `|u - v|^2 = u.u - 2 u.v + v.v`. */
  lemma SquareOfDifference(u: Vector, v: Vector)
    requires |u| == |v|
    ensures Dot(Combine(1.0, u, -1.0, v), Combine(1.0, u, -1.0, v)) == Dot(u, u) - 2.0 * Dot(u, v) + Dot(v, v)
  {
    var d := Combine(1.0, u, -1.0, v);
    DotCombine(1.0, u, -1.0, v, d, Dot(u, d), Dot(v, d));
    DotSymmetric(u, d);
    DotSymmetric(v, d);
    DotCombine(1.0, u, -1.0, v, u, Dot(u, u), Dot(v, u));
    DotCombine(1.0, u, -1.0, v, v, Dot(u, v), Dot(v, v));
    DotSymmetric(u, v);
  }

  lemma SquareOfSum(u: Vector, v: Vector)
    requires |u| == |v|
    ensures Dot(Combine(1.0, u, 1.0, v), Combine(1.0, u, 1.0, v)) == Dot(u, u) + 2.0 * Dot(u, v) + Dot(v, v)
  {
    var s := Combine(1.0, u, 1.0, v);
    DotCombine(1.0, u, 1.0, v, s, Dot(u, s), Dot(v, s));
    DotSymmetric(u, s);
    DotSymmetric(v, s);
    DotCombine(1.0, u, 1.0, v, u, Dot(u, u), Dot(v, u));
    DotCombine(1.0, u, 1.0, v, v, Dot(u, v), Dot(v, v));
    DotSymmetric(u, v);
  }

  // ---- distance ----------------------------------------------------------

  /** Cauchy-Schwarz for unit vectors, with its equality case. */
  lemma DistanceRange(u: Vector, v: Vector)
    requires |u| == |v| && Unit(u) && Unit(v)
    ensures 0.0 <= Distance(u, v) <= 2.0
    ensures Distance(u, v) == Distance(v, u)
    ensures Distance(u, v) == 0.0 <==> u == v
    ensures NonNegativeVector(u) && NonNegativeVector(v) ==> Distance(u, v) <= 1.0
  {
    var d, s := Combine(1.0, u, -1.0, v), Combine(1.0, u, 1.0, v);
    SquareOfDifference(u, v);
    SquareNonNegative(d);
    SquareOfSum(u, v);
    SquareNonNegative(s);
    DotSymmetric(u, v);
    if Distance(u, v) == 0.0 {
      forall i | 0 <= i < |u| ensures u[i] == v[i] {
        assert d[i] == 1.0 * u[i] + -1.0 * v[i] == 0.0;
      }
    }
    if NonNegativeVector(u) && NonNegativeVector(v) {
      DotNonNegative(u, v);
    }
  }

  /** The distance of unit vectors is half the square of the difference between them. */
  lemma DistanceIsHalfSquare(u: Vector, v: Vector, d: Vector)
    requires |u| == |v| == |d| && Unit(u) && Unit(v) && forall i | 0 <= i < |d| :: d[i] == u[i] - v[i]
    ensures Distance(u, v) == Dot(d, d) / 2.0
  {
    assert d == Combine(1.0, u, -1.0, v);
    SquareOfDifference(u, v);
  }

  // ---- compilation -------------------------------------------------------

  datatype LayerWeights = LayerWeights(device: real, behavior: real, context: real)

  const DEFAULT_LAYER_WEIGHTS := LayerWeights(0.5, 0.3, 0.2)

  /** HKDF-Expand output read as floats: one byte per component, divided by 255. */
  function ExpandVector(raw: seq<byte>): (v: Vector)
    ensures |v| == |raw|
    ensures forall i | 0 <= i < |v| :: v[i] * 255.0 == raw[i] as real
    ensures forall i | 0 <= i < |v| :: 0.0 <= v[i] <= 1.0 && (v[i] == 0.0 <==> raw[i] == 0)
  {
    seq(|raw|, i requires 0 <= i < |raw| => raw[i] as real / 255.0)
  }

  function WeightedSum(vd: Vector, vb: Vector, vc: Vector, w: LayerWeights): (r: Vector)
    requires |vd| == |vb| == |vc|
    ensures |r| == |vd|
  {
    seq(|vd|, i requires 0 <= i < |vd| => vd[i] * w.device + vb[i] * w.behavior + vc[i] * w.context)
  }

  /** The vector scaled onto the unit sphere; `None` is the zero-norm rejection. */
  function L2Normalize(sqrt: real -> real, v: Vector): (r: Option<Vector>)
    ensures r.Some? ==> |r.value| == |v|
  {
    var norm := sqrt(Dot(v, v));
    if norm == 0.0 then None else Some(Divide(v, norm))
  }

  function CompileVector(sqrt: real -> real, device: seq<byte>, behavior: seq<byte>, context: seq<byte>,
                         w: LayerWeights): Option<Vector>
    requires |device| == |behavior| == |context|
  {
    L2Normalize(sqrt, WeightedSum(ExpandVector(device), ExpandVector(behavior), ExpandVector(context), w))
  }

  lemma RootSign(sqrt: real -> real, x: real)
    requires SquareRoot(sqrt) && x >= 0.0
    ensures if x == 0.0 then sqrt(x) == 0.0 else sqrt(x) > 0.0
  {
    AddProduct(sqrt(x), sqrt(x), 0.0, x);
  }

  /** Normalising keeps signs, gives a unit vector, and fails exactly on the zero vector. */
  lemma NormalizedIsUnit(sqrt: real -> real, v: Vector)
    requires SquareRoot(sqrt)
    ensures L2Normalize(sqrt, v) == None <==> forall i | 0 <= i < |v| :: v[i] == 0.0
    ensures L2Normalize(sqrt, v).Some? ==>
      Unit(L2Normalize(sqrt, v).value) && (NonNegativeVector(v) ==> NonNegativeVector(L2Normalize(sqrt, v).value))
  {
    var x := Dot(v, v);
    var norm := sqrt(x);
    SquareNonNegative(v);
    RootSign(sqrt, x);
    if norm != 0.0 {
      var r := Divide(v, norm);
      DotDivide(v, norm, v, x);
      DotSymmetric(v, r);
      DotDivide(v, norm, r, x / norm);
      QuotientByRoot(x, norm);
      if NonNegativeVector(v) {
        forall i | 0 <= i < |v| ensures r[i] >= 0.0 {
          QuotientSign(v[i], norm);
        }
      }
    }
  }

  /** `v` is `raw` scaled by a positive factor, of which `n` is the inverse. */
  ghost predicate Along(v: Vector, raw: Vector, n: real) {
    n > 0.0 && |v| == |raw| && forall i | 0 <= i < |v| :: v[i] * n == raw[i]
  }

  lemma NormalizedIsAlong(sqrt: real -> real, v: Vector) returns (n: real)
    requires SquareRoot(sqrt) && L2Normalize(sqrt, v).Some?
    ensures Along(L2Normalize(sqrt, v).value, v, n)
  {
    n := sqrt(Dot(v, v));
    SquareNonNegative(v);
    RootSign(sqrt, Dot(v, v));
    DividedIsAlong(v, n);
  }

  lemma DividedIsAlong(v: Vector, n: real)
    requires n > 0.0
    ensures Along(Divide(v, n), v, n)
  {
    var r := Divide(v, n);
    forall i | 0 <= i < |r| ensures r[i] * n == v[i] {
      QuotientTimes(v[i], n, r[i]);
    }
  }

  lemma QuotientTimes(x: real, n: real, q: real)
    requires n != 0.0 && q == x / n
    ensures q * n == x
  {
  }

  /** There is one unit vector in a direction. */
  lemma OneUnitVector(v: Vector, v': Vector, raw: Vector, n: real, n': real)
    requires Unit(v) && Unit(v') && Along(v, raw, n) && Along(v', raw, n')
    ensures v == v'
  {
    assert v == Divide(raw, n) && v' == Divide(raw, n') by {
      forall i | 0 <= i < |raw| ensures v[i] == raw[i] / n && v'[i] == raw[i] / n' {
        TimesQuotient(v[i], n, raw[i]);
        TimesQuotient(v'[i], n', raw[i]);
      }
    }
    var x := Dot(raw, raw);
    SquareOfQuotient(raw, v, n, x);
    SquareOfQuotient(raw, v', n', x);
    SameRoot(n, n', x);
  }

  lemma TimesQuotient(q: real, n: real, x: real)
    requires n != 0.0 && q * n == x
    ensures q == x / n
  {
  }

  lemma SquareOfQuotient(raw: Vector, v: Vector, n: real, x: real)
    requires n > 0.0 && v == Divide(raw, n) && Unit(v) && x == Dot(raw, raw)
    ensures n * n == x
  {
    DotDivide(raw, n, raw, x);
    DotSymmetric(raw, v);
    DotDivide(raw, n, v, x / n);
    RootOfQuotient(x, n);
  }

  lemma RootOfQuotient(x: real, n: real)
    requires n > 0.0 && x / n / n == 1.0
    ensures n * n == x
  {
    assert x / n == n;
  }

  lemma SameRoot(n: real, n': real, x: real)
    requires n > 0.0 && n' > 0.0 && n * n == x && n' * n' == x
    ensures n == n'
  {
    assert (n - n') * (n + n') == 0.0;
  }

  lemma QuotientByRoot(x: real, n: real)
    requires n != 0.0 && n * n == x
    ensures x / n / n == 1.0
  {
    assert x / n == n;
  }

  lemma QuotientSign(x: real, n: real)
    requires x >= 0.0 && n > 0.0
    ensures x / n >= 0.0
  {
    var q := x / n;
    assert q * n == x;
  }

  /**
    Under the default weights every compiled vector is a unit vector with no
    negative component, and compilation is rejected exactly when all three
    layers expand to zero bytes only.
  */
  lemma CompiledVector(sqrt: real -> real, device: seq<byte>, behavior: seq<byte>, context: seq<byte>)
    requires SquareRoot(sqrt) && |device| == |behavior| == |context|
    ensures var r := CompileVector(sqrt, device, behavior, context, DEFAULT_LAYER_WEIGHTS);
      && (r == None <==> forall i | 0 <= i < |device| :: device[i] == behavior[i] == context[i] == 0)
      && (r.Some? ==> |r.value| == |device| && Unit(r.value) && NonNegativeVector(r.value))
  {
    var vd, vb, vc := ExpandVector(device), ExpandVector(behavior), ExpandVector(context);
    var raw := WeightedSum(vd, vb, vc, DEFAULT_LAYER_WEIGHTS);
    NormalizedIsUnit(sqrt, raw);
    forall i | 0 <= i < |raw|
      ensures raw[i] >= 0.0 && (raw[i] == 0.0 <==> device[i] == behavior[i] == context[i] == 0)
    {
      assert raw[i] == vd[i] * 0.5 + vb[i] * 0.3 + vc[i] * 0.2;
    }
  }

  /** Half of each device byte, three tenths of each behaviour byte and a fifth of each context byte. */
  ghost predicate Weighs(raw: Vector, device: seq<byte>, behavior: seq<byte>, context: seq<byte>) {
    && |raw| == |device| == |behavior| == |context|
    && forall i | 0 <= i < |raw| ::
         raw[i] == 0.5 * device[i] as real + 0.3 * behavior[i] as real + 0.2 * context[i] as real
  }

  /** Under the default weights the compiled vector points where the weighed bytes point. */
  lemma CompiledDirection(sqrt: real -> real, device: seq<byte>, behavior: seq<byte>, context: seq<byte>)
    returns (raw: Vector, n: real)
    requires SquareRoot(sqrt) && |device| == |behavior| == |context|
    requires CompileVector(sqrt, device, behavior, context, DEFAULT_LAYER_WEIGHTS).Some?
    ensures Weighs(raw, device, behavior, context)
    ensures Along(CompileVector(sqrt, device, behavior, context, DEFAULT_LAYER_WEIGHTS).value, raw, n)
  {
    var sum := WeightedSum(ExpandVector(device), ExpandVector(behavior), ExpandVector(context), DEFAULT_LAYER_WEIGHTS);
    var m := NormalizedIsAlong(sqrt, sum);
    raw := WeighedBytes(device, behavior, context, sum);
    n := AlongBytes(L2Normalize(sqrt, sum).value, sum, m, raw);
  }

  lemma WeighedBytes(device: seq<byte>, behavior: seq<byte>, context: seq<byte>, sum: Vector) returns (raw: Vector)
    requires |device| == |behavior| == |context|
    requires sum == WeightedSum(ExpandVector(device), ExpandVector(behavior), ExpandVector(context),
                                DEFAULT_LAYER_WEIGHTS)
    ensures Weighs(raw, device, behavior, context)
    ensures |raw| == |sum| && forall i | 0 <= i < |raw| :: raw[i] == sum[i] * 255.0
  {
    var vd, vb, vc := ExpandVector(device), ExpandVector(behavior), ExpandVector(context);
    raw := seq(|sum|, i requires 0 <= i < |sum| => sum[i] * 255.0);
    forall i | 0 <= i < |raw|
      ensures raw[i] == 0.5 * device[i] as real + 0.3 * behavior[i] as real + 0.2 * context[i] as real
    {
      assert sum[i] == vd[i] * 0.5 + vb[i] * 0.3 + vc[i] * 0.2;
    }
  }

  lemma AlongBytes(v: Vector, sum: Vector, m: real, raw: Vector) returns (n: real)
    requires Along(v, sum, m) && |raw| == |sum| && forall i | 0 <= i < |raw| :: raw[i] == sum[i] * 255.0
    ensures Along(v, raw, n)
  {
    n := m * 255.0;
    forall i | 0 <= i < |v| ensures v[i] * n == raw[i] {
      Rescaled(v[i], m, sum[i], n);
    }
  }

  lemma Rescaled(q: real, m: real, x: real, n: real)
    requires q * m == x && n == m * 255.0
    ensures q * n == x * 255.0
  {
  }

  // ---- baseline drift ----------------------------------------------------

  const ALPHA_DEFAULT: real := 0.1

  /** The blend of baseline and current vector, renormalised; `None` is a division by a zero norm. */
  function Ewma(sqrt: real -> real, baseline: Vector, current: Vector, alpha: real): (r: Option<Vector>)
    requires |baseline| == |current|
    ensures r.Some? ==> |r.value| == |baseline|
  {
    L2Normalize(sqrt, Combine(1.0 - alpha, baseline, alpha, current))
  }

  /** The drifted vector points where `1 - alpha` of the baseline and `alpha` of the current vector point. */
  lemma EwmaDirection(sqrt: real -> real, baseline: Vector, current: Vector, alpha: real, beta: real, blend: Vector)
    returns (n: real)
    requires SquareRoot(sqrt) && |baseline| == |current| == |blend| && beta == 1.0 - alpha
    requires forall i | 0 <= i < |blend| :: blend[i] == beta * baseline[i] + alpha * current[i]
    requires Ewma(sqrt, baseline, current, alpha).Some?
    ensures Along(Ewma(sqrt, baseline, current, alpha).value, blend, n)
  {
    var m := Combine(beta, baseline, alpha, current);
    forall i | 0 <= i < |blend| ensures blend[i] == m[i] {
      CombinedAt(beta, baseline, alpha, current, m, i, baseline[i], current[i]);
    }
    assert blend == m;
    n := NormalizedIsAlong(sqrt, blend);
  }

  /** The dot products of the blend `m` of two unit vectors. */
  lemma BlendDots(b: Vector, c: Vector, alpha: real, beta: real, x: real, m: Vector)
    requires |b| == |c| && Unit(b) && Unit(c) && x == Dot(b, c)
    requires m == Combine(beta, b, alpha, c)
    ensures Dot(m, b) == beta + alpha * x
    ensures Dot(m, c) == beta * x + alpha
  {
    DotSymmetric(b, c);
    DotCombine(beta, b, alpha, c, b, 1.0, x);
    DotCombine(beta, b, alpha, c, c, x, 1.0);
  }

  lemma BlendSquare(b: Vector, c: Vector, alpha: real, beta: real, m: Vector, mb: real, mc: real)
    requires |b| == |c| && m == Combine(beta, b, alpha, c)
    requires mb == Dot(m, b) && mc == Dot(m, c)
    ensures Dot(m, m) == beta * mb + alpha * mc
  {
    DotSymmetric(b, m);
    DotSymmetric(c, m);
    DotCombine(beta, b, alpha, c, m, mb, mc);
  }

  /** The blend of two unit vectors at distance `d`. */
  lemma Blend(b: Vector, c: Vector, alpha: real, beta: real, d: real, m: Vector)
    requires |b| == |c| && Unit(b) && Unit(c) && d == Distance(b, c)
    requires beta == 1.0 - alpha && m == Combine(beta, b, alpha, c)
    ensures Dot(m, b) == 1.0 - alpha * d
    ensures Dot(m, c) == 1.0 - beta * d
    ensures Dot(m, m) == 1.0 - 2.0 * (alpha * beta * d)
  {
    var x := Dot(b, c);
    BlendDots(b, c, alpha, beta, x, m);
    var mb, mc := Dot(m, b), Dot(m, c);
    BlendSquare(b, c, alpha, beta, m, mb, mc);
    BlendArithmetic(alpha, beta, d, x, mb, mc, Dot(m, m));
  }

  lemma BlendArithmetic(alpha: real, beta: real, d: real, x: real, mb: real, mc: real, mm: real)
    requires beta == 1.0 - alpha && x == 1.0 - d
    requires mb == beta + alpha * x && mc == beta * x + alpha && mm == beta * mb + alpha * mc
    ensures mb == 1.0 - alpha * d && mc == 1.0 - beta * d
    ensures mm == 1.0 - 2.0 * (alpha * beta * d)
  {
    assert mb == 1.0 - alpha * d;
    assert mc == 1.0 - beta * d;
    assert beta * mb == beta - alpha * beta * d;
    assert alpha * mc == alpha - alpha * beta * d;
  }

  /** The update divides by zero only for opposite vectors blended half and half. */
  lemma EwmaUndefined(sqrt: real -> real, b: Vector, c: Vector, alpha: real)
    requires SquareRoot(sqrt) && |b| == |c| && Unit(b) && Unit(c)
    ensures Ewma(sqrt, b, c, alpha) == None <==> alpha == 0.5 && Distance(b, c) == 2.0
  {
    var beta, d := 1.0 - alpha, Distance(b, c);
    var m := Combine(beta, b, alpha, c);
    Blend(b, c, alpha, beta, d, m);
    DistanceRange(b, c);
    SquareNonNegative(m);
    RootSign(sqrt, Dot(m, m));
    BlendVanishes(alpha, beta, d, Dot(m, m));
  }

  lemma BlendVanishes(alpha: real, beta: real, d: real, mm: real)
    requires 0.0 <= d <= 2.0 && beta == 1.0 - alpha && mm == 1.0 - 2.0 * (alpha * beta * d)
    ensures mm == 0.0 <==> alpha == 0.5 && d == 2.0
  {
    var e, p := alpha - 0.5, alpha * beta;
    assert 0.25 == e * e + p;
    AddProduct(e, e, p, 0.25);
    PeakProduct(p, d, p * d);
  }

  lemma PeakProduct(p: real, d: real, pd: real)
    requires p <= 0.25 && 0.0 <= d <= 2.0 && pd == p * d
    ensures pd == 0.5 <==> p == 0.25 && d == 2.0
  {
    NonNegative(0.25 - p, d);
    assert (0.25 - p) * d == 0.25 * d - pd;
  }

  /**
    One update on an accepted session: it is always defined, keeps the baseline
    a non-negative unit vector, shrinks the distance to the accepted vector by
    the factor `1 - alpha` at least, and moves the baseline by at most `alpha`
    times the old distance.
  */
  lemma EwmaContracts(sqrt: real -> real, b: Vector, c: Vector, alpha: real, beta: real, d: real)
    requires SquareRoot(sqrt) && 0.0 < alpha < 1.0 && beta == 1.0 - alpha && |b| == |c|
    requires Unit(b) && Unit(c) && NonNegativeVector(b) && NonNegativeVector(c)
    requires d == Distance(b, c)
    ensures Ewma(sqrt, b, c, alpha).Some?
    ensures var r := Ewma(sqrt, b, c, alpha).value;
      && Unit(r) && NonNegativeVector(r)
      && Distance(r, c) <= beta * d
      && Distance(r, b) <= alpha * d
  {
    var m := Combine(beta, b, alpha, c);
    BlendIsNonNegative(b, c, alpha, beta, m);
    Blend(b, c, alpha, beta, d, m);
    DistanceRange(b, c);
    EwmaUndefined(sqrt, b, c, alpha);
    NormalizedIsUnit(sqrt, m);
    DotNonNegative(m, b);
    DotNonNegative(m, c);
    BlendNorm(sqrt, m, alpha, beta, d);
    NormalizedDots(sqrt, m, b);
    NormalizedDots(sqrt, m, c);
  }

  lemma BlendIsNonNegative(b: Vector, c: Vector, alpha: real, beta: real, m: Vector)
    requires |b| == |c| && m == Combine(beta, b, alpha, c) && alpha >= 0.0 && beta >= 0.0
    requires NonNegativeVector(b) && NonNegativeVector(c)
    ensures NonNegativeVector(m)
  {
    forall i | 0 <= i < |m| ensures m[i] >= 0.0 {
      NonNegative(beta, b[i]);
      NonNegative(alpha, c[i]);
    }
  }

  lemma BlendNorm(sqrt: real -> real, m: Vector, alpha: real, beta: real, d: real)
    requires SquareRoot(sqrt) && 0.0 < alpha < 1.0 && beta == 1.0 - alpha && d >= 0.0
    requires Dot(m, m) == 1.0 - 2.0 * (alpha * beta * d)
    ensures 0.0 <= sqrt(Dot(m, m)) <= 1.0
  {
    var x := Dot(m, m);
    SquareNonNegative(m);
    var p := alpha * beta;
    NonNegative(alpha, beta);
    NonNegative(p, d);
    RootAtMostOne(x, sqrt(x));
  }

  /** Scaling a vector up to unit length never lowers a non-negative dot product. */
  lemma NormalizedDots(sqrt: real -> real, m: Vector, w: Vector)
    requires 0.0 <= sqrt(Dot(m, m)) <= 1.0 && Dot(m, w) >= 0.0 && L2Normalize(sqrt, m).Some?
    ensures Dot(L2Normalize(sqrt, m).value, w) >= Dot(m, w)
  {
    var norm, x := sqrt(Dot(m, m)), Dot(m, w);
    DotDivide(m, norm, w, x);
    QuotientGrows(x, norm);
  }

  lemma RootAtMostOne(x: real, n: real)
    requires n >= 0.0 && n * n == x && x <= 1.0
    ensures n <= 1.0
  {
    if n > 1.0 {
      Exceeds(n, n, x);
    }
  }

  lemma Exceeds(m: real, n: real, p: real)
    requires m > 1.0 && n > 1.0 && p == m * n
    ensures p > 1.0
  {
    Positive(m - 1.0, n);
  }

  lemma QuotientGrows(x: real, n: real)
    requires x >= 0.0 && 0.0 < n <= 1.0
    ensures x / n >= x
  {
    var q := x / n;
    assert q * n == x;
    QuotientSign(x, n);
    NonNegative(q, 1.0 - n);
  }

  /** `n` updates towards the same vector. */
  function EwmaTimes(sqrt: real -> real, b: Vector, c: Vector, alpha: real, n: nat): (r: Option<Vector>)
    requires |b| == |c|
    ensures r.Some? ==> |r.value| == |b|
  {
    if n == 0 then Some(b)
    else
      var before := EwmaTimes(sqrt, b, c, alpha, n - 1);
      if before == None then None else Ewma(sqrt, before.value, c, alpha)
  }

  /** The baseline converges geometrically to a vector that keeps being accepted. */
  lemma {:induction false} EwmaConverges(sqrt: real -> real, b: Vector, c: Vector, alpha: real, n: nat, d: real,
                                         rate: real)
    requires SquareRoot(sqrt) && 0.0 < alpha < 1.0 && |b| == |c|
    requires Unit(b) && Unit(c) && NonNegativeVector(b) && NonNegativeVector(c)
    requires d == Distance(b, c) && rate == Power(1.0 - alpha, n)
    ensures EwmaTimes(sqrt, b, c, alpha, n).Some?
    ensures var r := EwmaTimes(sqrt, b, c, alpha, n).value;
      Unit(r) && NonNegativeVector(r) && Distance(r, c) <= rate * d
  {
    if n > 0 {
      var beta := 1.0 - alpha;
      var rate' := Power(beta, n - 1);
      EwmaConverges(sqrt, b, c, alpha, n - 1, d, rate');
      var r := EwmaTimes(sqrt, b, c, alpha, n - 1).value;
      var dr := Distance(r, c);
      EwmaContracts(sqrt, r, c, alpha, beta, dr);
      ShrinkAgain(beta, dr, rate', d, rate);
    }
  }

  lemma ShrinkAgain(c: real, x: real, p: real, d: real, p': real)
    requires c >= 0.0 && x <= p * d && p' == c * p
    ensures c * x <= p' * d
  {
    NonNegative(c, p * d - x);
    assert p' * d == c * (p * d);
  }
}

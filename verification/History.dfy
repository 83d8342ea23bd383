/**
  The history score: a bounded window of session outcomes per subject,
  scored by exponentially weighted recency.
*/
module History {
  import opened Prelude

  const LAMBDA_DEFAULT: Decay := 0.85
  const K_DEFAULT: nat := 20
  const NEUTRAL_PRIOR: real := 50.0

  /** The recency decay, documented to lie strictly between 0 and 1. */
  type Decay = lam: real | 0.0 < lam < 1.0 witness 0.5

  /** `deque(maxlen=k).append(outcome)`: a full deque drops its oldest entry. */
  function Appended(dq: seq<bool>, k: nat, outcome: bool): seq<bool> {
    if k == 0 then []
    else if |dq| < k then dq + [outcome]
    else dq[|dq| - k + 1..] + [outcome]
  }

  /** The most recent `k` entries of a log, oldest first. */
  function Window(log: seq<bool>, k: nat): (w: seq<bool>)
    ensures |w| <= k && |w| <= |log|
  {
    if |log| <= k then log else log[|log| - k..]
  }

  /** The window is as long as the log allows, and is the log's own end. */
  lemma WindowIsEnd(log: seq<bool>, k: nat)
    ensures |Window(log, k)| == if |log| < k then |log| else k
    ensures forall i | 0 <= i < |Window(log, k)| :: Window(log, k)[i] == log[|log| - |Window(log, k)| + i]
  {
  }

  /** Appending to the window is the same as taking the window of the longer log. */
  lemma AppendedIsWindow(log: seq<bool>, k: nat, outcome: bool)
    ensures Appended(Window(log, k), k, outcome) == Window(log + [outcome], k)
  {
  }

  // ---- weighted sums -----------------------------------------------------

  /**
    Weight of the matched outcomes when the newest, which is last, is `age`
    sessions old: an outcome of age `a` weighs `lam ** a`.
  */
  function Mass(dq: seq<bool>, lam: real, age: nat): real {
    if dq == [] then 0.0
    else Mass(dq[1..], lam, age) + (if dq[0] then Power(lam, |dq| - 1 + age) else 0.0)
  }

  /** Weight of all `n` outcomes, the newest `age` sessions old. */
  function Total(n: nat, lam: real, age: nat): real {
    if n == 0 then 0.0 else Total(n - 1, lam, age) + Power(lam, n - 1 + age)
  }

  lemma {:induction false} SumBounds(dq: seq<bool>, lam: Decay, age: nat)
    ensures 0.0 <= Mass(dq, lam, age) <= Total(|dq|, lam, age)
    ensures dq != [] ==> Total(|dq|, lam, age) > 0.0
  {
    if dq != [] {
      SumBounds(dq[1..], lam, age);
      PowerInUnitInterval(lam, |dq| - 1 + age);
    }
  }

  /** A new outcome weighs 1 and makes every earlier one a session older. */
  lemma {:induction false} MassAppend(dq: seq<bool>, lam: real, outcome: bool)
    ensures Mass(dq + [outcome], lam, 0) == (if outcome then 1.0 else 0.0) + Mass(dq, lam, 1)
  {
    var next := dq + [outcome];
    if dq == [] {
      assert next[1..] == [];
    } else {
      MassAppend(dq[1..], lam, outcome);
      assert next[1..] == dq[1..] + [outcome];
    }
  }

  lemma {:induction false} TotalAppend(n: nat, lam: real)
    ensures Total(n + 1, lam, 0) == 1.0 + Total(n, lam, 1)
  {
    if n > 0 {
      TotalAppend(n - 1, lam);
    }
  }

  /** A session's ageing takes from the matched weight at most what it takes from all of it. */
  lemma {:induction false} AgeingLoss(dq: seq<bool>, lam: Decay)
    ensures 0.0 <= Mass(dq, lam, 0) - Mass(dq, lam, 1) <= Total(|dq|, lam, 0) - Total(|dq|, lam, 1)
  {
    if dq != [] {
      AgeingLoss(dq[1..], lam);
      PowerDecreases(lam, |dq| - 1);
    }
  }

  lemma PowerDecreases(lam: Decay, n: nat)
    ensures 0.0 < Power(lam, n + 1) <= Power(lam, n)
  {
    PowerInUnitInterval(lam, n);
    PowerInUnitInterval(lam, n + 1);
    NonNegative(1.0 - lam, Power(lam, n));
  }

  /** Ageing by a session scales the matched weight, and all of it, by `lam`. */
  lemma {:induction false} MassAges(dq: seq<bool>, lam: real, mass: real)
    requires mass == Mass(dq, lam, 0)
    ensures Mass(dq, lam, 1) == lam * mass
  {
    if dq != [] {
      var rest := Mass(dq[1..], lam, 0);
      MassAges(dq[1..], lam, rest);
      ScaleSum(lam, rest, mass - rest);
      assert dq[0] ==> mass - rest == Power(lam, |dq| - 1);
    }
  }

  lemma {:induction false} TotalAges(n: nat, lam: real, total: real)
    requires total == Total(n, lam, 0)
    ensures Total(n, lam, 1) == lam * total
  {
    if n > 0 {
      var rest := Total(n - 1, lam, 0);
      TotalAges(n - 1, lam, rest);
      ScaleSum(lam, rest, total - rest);
      assert total - rest == Power(lam, n - 1);
    }
  }

  lemma ScaleSum(c: real, x: real, y: real)
    ensures c * (x + y) == c * x + c * y
  {
  }

  // ---- the score ---------------------------------------------------------

  function Score(dq: seq<bool>, lam: Decay): real {
    if dq == [] then NEUTRAL_PRIOR
    else
      SumBounds(dq, lam, 0);
      100.0 * Mass(dq, lam, 0) / Total(|dq|, lam, 0)
  }

  /** The accumulation loop, newest outcome first, and its final clamp, which changes nothing. */
  method WeightedRecency(dq: seq<bool>, lam: Decay) returns (score: real)
    ensures score == Score(dq, lam)
  {
    if dq == [] {
      return NEUTRAL_PRIOR;
    }
    var n := |dq|;
    var num, den := 0.0, 0.0;
    var i := 0;
    while i < n
      invariant 0 <= i <= n
      invariant num == Mass(dq[n - i..], lam, 0)
      invariant den == Total(i, lam, 0)
    {
      var w := Power(lam, i);
      assert dq[n - i - 1..][1..] == dq[n - i..];
      num := if dq[n - i - 1] then num + w else num;
      den := den + w;
      i := i + 1;
    }
    assert dq[n - i..] == dq;
    SumBounds(dq, lam, 0);
    FractionBounds(num, den);
    score := 100.0 * num / den;
    score := if score > 100.0 then 100.0 else score;
    score := if score < 0.0 then 0.0 else score;
  }

  lemma ScoreInRange(dq: seq<bool>, lam: Decay)
    ensures 0.0 <= Score(dq, lam) <= 100.0
  {
    if dq != [] {
      SumBounds(dq, lam, 0);
      FractionBounds(Mass(dq, lam, 0), Total(|dq|, lam, 0));
    }
  }

  lemma FractionBounds(m: real, t: real)
    requires t > 0.0 && 0.0 <= m <= t
    ensures 0.0 <= 100.0 * m / t <= 100.0
    ensures m == 0.0 ==> 100.0 * m / t == 0.0
    ensures m == t ==> 100.0 * m / t == 100.0
  {
    var q := 100.0 * m / t;
    assert q * t == 100.0 * m;
  }

  /** Windows of matches only score 100 and windows of failures only score 0. */
  lemma UniformScore(dq: seq<bool>, lam: Decay, outcome: bool)
    requires dq != [] && forall i | 0 <= i < |dq| :: dq[i] == outcome
    ensures Score(dq, lam) == if outcome then 100.0 else 0.0
  {
    SumBounds(dq, lam, 0);
    UniformMass(dq, lam, outcome);
    FractionBounds(Mass(dq, lam, 0), Total(|dq|, lam, 0));
  }

  lemma {:induction false} UniformMass(dq: seq<bool>, lam: Decay, outcome: bool)
    requires forall i | 0 <= i < |dq| :: dq[i] == outcome
    ensures Mass(dq, lam, 0) == if outcome then Total(|dq|, lam, 0) else 0.0
  {
    if dq != [] {
      UniformMass(dq[1..], lam, outcome);
    }
  }

  // ---- what one more outcome makes of the score --------------------------

  /** The geometric series, without its fraction. */
  lemma {:induction false} GeometricTotal(n: nat, lam: real, total: real, d: real, r: real)
    requires total == Total(n, lam, 0) && d == 1.0 - lam && r == 1.0 - Power(lam, n)
    ensures total * d == r
  {
    if n > 0 {
      var rest, last := Total(n - 1, lam, 0), Power(lam, n - 1);
      GeometricTotal(n - 1, lam, rest, d, 1.0 - last);
      GeometricStep(lam, d, rest, last, total, 1.0 - r);
    }
  }

  lemma GeometricStep(lam: real, d: real, rest: real, last: real, total: real, power: real)
    requires d == 1.0 - lam && rest * d == 1.0 - last && total == rest + last && power == lam * last
    ensures total * d == 1.0 - power
  {
    ScaleSum(d, rest, last);
  }

  lemma ScoreTimesTotal(dq: seq<bool>, lam: Decay, score: real, mass: real, total: real)
    requires dq != [] && score == Score(dq, lam) && mass == Mass(dq, lam, 0) && total == Total(|dq|, lam, 0)
    ensures score * total == 100.0 * mass
  {
    SumBounds(dq, lam, 0);
  }

  /** The score, against what the weights add up to, is the matched weight. */
  lemma ShareOfMass(dq: seq<bool>, lam: Decay, score: real, mass: real, d: real, r: real, x: real)
    requires score == Score(dq, lam) && mass == Mass(dq, lam, 0)
    requires d == 1.0 - lam && r == 1.0 - Power(lam, |dq|) && x == score * r
    ensures x == 100.0 * (mass * d)
  {
    if dq != [] {
      var total := Total(|dq|, lam, 0);
      ScoreTimesTotal(dq, lam, score, mass, total);
      GeometricTotal(|dq|, lam, total, d, r);
      Weighed(score, mass, total, d, r, x);
    }
  }

  lemma Weighed(score: real, mass: real, total: real, d: real, r: real, x: real)
    requires score * total == 100.0 * mass && total * d == r && x == score * r
    ensures x == 100.0 * (mass * d)
  {
    assert score * (total * d) == (score * total) * d;
  }

  /** What an outcome counts for when it is new. */
  function Worth(outcome: bool): real {
    if outcome then 1.0 else 0.0
  }

  lemma MassGrows(dq: seq<bool>, lam: real, outcome: bool, w: real, m: real, m': real)
    requires w == Worth(outcome) && m == Mass(dq, lam, 0) && m' == Mass(dq + [outcome], lam, 0)
    ensures m' == w + lam * m
  {
    MassAppend(dq, lam, outcome);
    MassAges(dq, lam, m);
  }

  /**
    The recurrence of the score, which determines it: a window that grows takes the
    new outcome at `1 - lam` of 100 and its score at `lam`, each score multiplied by
    the `1 - lam ** n` that the weights of `n` outcomes come to.
  */
  lemma ScoreGrows(dq: seq<bool>, lam: Decay, outcome: bool, d: real, s: real, r: real, x: real, s': real, r': real,
                   x': real)
    requires d == 1.0 - lam && s == Score(dq, lam) && s' == Score(dq + [outcome], lam)
    requires r == 1.0 - Power(lam, |dq|) && r' == 1.0 - Power(lam, |dq| + 1) && x == s * r && x' == s' * r'
    ensures x' == (if outcome then 100.0 * d else 0.0) + lam * x
  {
    var m := Mass(dq, lam, 0);
    ShareOfMass(dq, lam, s, m, d, r, x);
    ShareGrows(dq, lam, outcome, dq + [outcome], s', d, r', x', m, x);
  }

  lemma ShareGrows(dq: seq<bool>, lam: Decay, outcome: bool, next: seq<bool>, score: real, d: real, r: real,
                   x': real, m: real, x: real)
    requires next == dq + [outcome] && score == Score(next, lam)
    requires d == 1.0 - lam && r == 1.0 - Power(lam, |next|) && x' == score * r
    requires m == Mass(dq, lam, 0) && x == 100.0 * (m * d)
    ensures x' == (if outcome then 100.0 * d else 0.0) + lam * x
  {
    var m' := Mass(next, lam, 0);
    ShareOfMass(next, lam, score, m', d, r, x');
    MassStep(dq, lam, outcome, d, m, m', x, x');
  }

  lemma MassStep(dq: seq<bool>, lam: real, outcome: bool, d: real, m: real, m': real, x: real, x': real)
    requires m == Mass(dq, lam, 0) && m' == Mass(dq + [outcome], lam, 0)
    requires x == 100.0 * (m * d) && x' == 100.0 * (m' * d)
    ensures x' == (if outcome then 100.0 * d else 0.0) + lam * x
  {
    MassGrows(dq, lam, outcome, Worth(outcome), m, m');
    Recurrence(lam, d, outcome, m, m', x, x');
  }

  lemma Recurrence(lam: real, d: real, outcome: bool, m: real, m': real, x: real, x': real)
    requires m' == Worth(outcome) + lam * m && x == 100.0 * (m * d) && x' == 100.0 * (m' * d)
    ensures x' == (if outcome then 100.0 * d else 0.0) + lam * x
  {
    ScaleSum(d, Worth(outcome), lam * m);
    assert d * (lam * m) == lam * (m * d);
  }

  /** The oldest outcome of a window weighs `oldest`, and a session later it would weigh `p`. */
  lemma OldestWeight(dq: seq<bool>, lam: real, rest: real, m: real, q: real, p: real)
    requires dq != [] && rest == Mass(dq[1..], lam, 0) && m == Mass(dq, lam, 0)
    requires q == Power(lam, |dq| - 1) && p == Power(lam, |dq|)
    ensures m == rest + (if dq[0] then q else 0.0) && p == lam * q
  {
  }

  lemma Leaves(lam: real, d: real, oldest: bool, rest: real, m: real, q: real, p: real, y: real, x: real)
    requires m == rest + (if oldest then q else 0.0) && p == lam * q
    requires y == 100.0 * (rest * d) && x == 100.0 * (m * d)
    ensures lam * y == lam * x - (if oldest then 100.0 * (p * d) else 0.0)
  {
    if oldest {
      ScaleSum(d, rest, q);
      assert lam * (q * d) == p * d;
      ScaleSum(lam, rest * d, q * d);
    }
  }

  lemma OldestLeaves(dq: seq<bool>, lam: real, d: real, rest: real, m: real, p: real, y: real, x: real)
    requires dq != [] && rest == Mass(dq[1..], lam, 0) && m == Mass(dq, lam, 0) && p == Power(lam, |dq|)
    requires y == 100.0 * (rest * d) && x == 100.0 * (m * d)
    ensures lam * y == lam * x - (if dq[0] then 100.0 * (p * d) else 0.0)
  {
    var q := Power(lam, |dq| - 1);
    OldestWeight(dq, lam, rest, m, q, p);
    Leaves(lam, d, dq[0], rest, m, q, p, y, x);
  }

  /** A full window takes the new outcome in the same way, and gives up its oldest at the weight left to it. */
  lemma ScoreSlides(dq: seq<bool>, lam: Decay, outcome: bool, d: real, p: real, r: real, s: real, x: real, s': real,
                    x': real)
    requires dq != [] && d == 1.0 - lam && p == Power(lam, |dq|) && r == 1.0 - p
    requires s == Score(dq, lam) && s' == Score(dq[1..] + [outcome], lam) && x == s * r && x' == s' * r
    ensures x' == (if outcome then 100.0 * d else 0.0) - (if dq[0] then 100.0 * (p * d) else 0.0) + lam * x
  {
    var m, rest := Mass(dq, lam, 0), Mass(dq[1..], lam, 0);
    var y := 100.0 * (rest * d);
    ShareOfMass(dq, lam, s, m, d, r, x);
    ShareGrows(dq[1..], lam, outcome, dq[1..] + [outcome], s', d, r, x', rest, y);
    OldestLeaves(dq, lam, d, rest, m, p, y, x);
  }

  // ---- monotonicity ------------------------------------------------------

  /**
    Sliding-window monotonicity, for every decay, every window size and every
    window: recording a match never lowers the score and recording a failure
    never raises it, whether the window is growing or evicting its oldest entry.
  */
  lemma RecordIsMonotone(dq: seq<bool>, k: nat, lam: Decay, outcome: bool)
    requires |dq| <= k
    ensures outcome ==> Score(Appended(dq, k, outcome), lam) >= Score(dq, lam)
    ensures !outcome ==> Score(Appended(dq, k, outcome), lam) <= Score(dq, lam)
  {
    if dq == [] || k == 0 {
      if k > 0 {
        assert Appended(dq, k, outcome) == [outcome];
        UniformScore([outcome], lam, outcome);
      }
    } else if |dq| < k {
      GrowingWindow(dq, lam, outcome);
    } else {
      assert dq[|dq| - k + 1..] == dq[1..];
      FullWindow(dq, lam, outcome);
    }
  }

  lemma GrowingWindow(dq: seq<bool>, lam: Decay, outcome: bool)
    requires dq != []
    ensures outcome ==> Score(dq + [outcome], lam) >= Score(dq, lam)
    ensures !outcome ==> Score(dq + [outcome], lam) <= Score(dq, lam)
  {
    var m, m' := Mass(dq, lam, 0), Mass(dq + [outcome], lam, 0);
    var t, t' := Total(|dq|, lam, 0), Total(|dq| + 1, lam, 0);
    SumBounds(dq, lam, 0);
    SumBounds(dq + [outcome], lam, 0);
    MassAppend(dq, lam, outcome);
    MassAges(dq, lam, m);
    TotalAppend(|dq|, lam);
    TotalAges(|dq|, lam, t);
    Grow(lam, outcome, m, m', t, t');
  }

  lemma Grow(lam: real, outcome: bool, m: real, m': real, t: real, t': real)
    requires 0.0 <= m <= t && t > 0.0 && t' > 0.0
    requires m' == (if outcome then 1.0 else 0.0) + lam * m && t' == 1.0 + lam * t
    ensures outcome ==> 100.0 * m / t <= 100.0 * m' / t'
    ensures !outcome ==> 100.0 * m' / t' <= 100.0 * m / t
  {
    if outcome {
      assert m' * t - m * t' == t - m;
      FractionOrder(m, t, m', t');
    } else {
      assert m * t' - m' * t == m;
      FractionOrder(m', t', m, t);
    }
  }

  lemma FractionOrder(a: real, b: real, c: real, d: real)
    requires b > 0.0 && d > 0.0 && a * d <= c * b
    ensures 100.0 * a / b <= 100.0 * c / d
  {
    var p, q := a / b, c / d;
    assert a == p * b && c == q * d;
    assert p * (b * d) <= q * (b * d);
    assert p <= q;
    assert 100.0 * a / b == 100.0 * p && 100.0 * c / d == 100.0 * q;
  }

  /** The window is full: the oldest outcome leaves as the new one enters. */
  lemma FullWindow(dq: seq<bool>, lam: Decay, outcome: bool)
    requires dq != []
    ensures outcome ==> Score(dq[1..] + [outcome], lam) >= Score(dq, lam)
    ensures !outcome ==> Score(dq[1..] + [outcome], lam) <= Score(dq, lam)
  {
    SlideMass(dq, lam, outcome);
    if outcome {
      MassOrdersScore(dq, dq[1..] + [outcome], lam);
    } else {
      MassOrdersScore(dq[1..] + [outcome], dq, lam);
    }
  }

  lemma MassOrdersScore(low: seq<bool>, high: seq<bool>, lam: Decay)
    requires |low| == |high| > 0 && Mass(low, lam, 0) <= Mass(high, lam, 0)
    ensures Score(low, lam) <= Score(high, lam)
  {
    SumBounds(low, lam, 0);
    SameTotalOrder(Mass(low, lam, 0), Mass(high, lam, 0), Total(|low|, lam, 0));
  }

  lemma SameTotalOrder(m: real, m': real, t: real)
    requires m <= m' && t > 0.0
    ensures 100.0 * m / t <= 100.0 * m' / t
  {
    NonNegative(m' - m, t);
    FractionOrder(m, t, m', t);
  }

  /** All but the oldest weight, aged by a session, is all but the newest weight. */
  lemma SlideMass(dq: seq<bool>, lam: Decay, outcome: bool)
    requires dq != []
    ensures outcome ==> Mass(dq[1..] + [outcome], lam, 0) >= Mass(dq, lam, 0)
    ensures !outcome ==> Mass(dq[1..] + [outcome], lam, 0) <= Mass(dq, lam, 0)
  {
    MassAppend(dq[1..], lam, outcome);
    AgeingLoss(dq[1..], lam);
    TotalAppend(|dq| - 1, lam);
    PowerInUnitInterval(lam, |dq| - 1);
  }
}

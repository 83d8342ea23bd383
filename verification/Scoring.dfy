/** The trust score: its components, its weights, the risk rules and the decision policy. */
module Scoring {
  import opened Prelude

  function Clamp(x: real, lo: real, hi: real): real {
    var capped := if x < hi then x else hi;
    if capped > lo then capped else lo
  }

  /** The nearest number within the bounds. */
  lemma ClampIsNearest(x: real, lo: real, hi: real)
    requires lo <= hi
    ensures x < lo ==> Clamp(x, lo, hi) == lo
    ensures lo <= x <= hi ==> Clamp(x, lo, hi) == x
    ensures x > hi ==> Clamp(x, lo, hi) == hi
  {
  }

  // ---- confidence --------------------------------------------------------

  /** `1 - exp(-n_eff / tau)`, where `fade` is `exp(-1 / tau)`. */
  function Confidence(nEff: nat, fade: real): real {
    1.0 - Power(fade, nEff)
  }

  lemma ConfidenceRange(nEff: nat, fade: real)
    requires 0.0 < fade < 1.0
    ensures 0.0 <= Confidence(nEff, fade) < 1.0
    ensures nEff > 0 ==> Confidence(nEff, fade) > 0.0
  {
    PowerInUnitInterval(fade, nEff);
  }

  /** Doubt, which is what confidence lacks to 1, multiplies over layers and is `fade` for one. */
  lemma {:induction false} DoubtMultiplies(m: nat, n: nat, fade: real, doubt: real, doubt': real)
    requires doubt == 1.0 - Confidence(m, fade) && doubt' == 1.0 - Confidence(n, fade)
    ensures 1.0 - Confidence(m + n, fade) == doubt * doubt'
    ensures Confidence(0, fade) == 0.0 && Confidence(1, fade) == 1.0 - fade
  {
    if m > 0 {
      var rest := Power(fade, m - 1);
      DoubtMultiplies(m - 1, n, fade, rest, doubt');
      assert fade * (rest * doubt') == (fade * rest) * doubt';
    }
  }

  /** Every further layer raises confidence. */
  lemma ConfidenceGrows(nEff: nat, fade: real)
    requires 0.0 < fade < 1.0
    ensures Confidence(nEff, fade) < Confidence(nEff + 1, fade)
  {
    PowerInUnitInterval(fade, nEff);
    Fades(fade, Power(fade, nEff), Power(fade, nEff + 1));
  }

  lemma Fades(fade: real, power: real, next: real)
    requires 0.0 < fade < 1.0 && 0.0 < power && next == fade * power
    ensures next < power
  {
    assert (1.0 - fade) * power > 0.0;
  }

  // ---- components --------------------------------------------------------

  /** A missing distance (no baseline yet) counts as the neutral midpoint 1. */
  function IdentityScore(distance: Option<real>, conf: real): real {
    var d := if distance.None? then 1.0 else distance.value;
    100.0 * (1.0 - d / 2.0) * conf
  }

  /** The score falls linearly with the distance, from full confidence at 0 to nothing at 2. */
  lemma IdentityIsLinear(d: real, conf: real)
    ensures IdentityScore(Some(d), conf) == 100.0 * conf - 50.0 * (d * conf)
    ensures IdentityScore(None, conf) == 50.0 * conf
  {
  }

  function ContextProduct(priors: seq<real>): real {
    if priors == [] then 1.0
    else Times(ContextProduct(priors[..|priors| - 1]), Clamp(priors[|priors| - 1], 0.0, 1.0))
  }

  function ContextScore(priors: seq<real>): real {
    100.0 * ContextProduct(priors)
  }

  method ComputeContextScore(priors: seq<real>) returns (score: real)
    ensures score == ContextScore(priors)
  {
    if priors == [] {
      return 100.0;
    }
    var product := 1.0;
    for i := 0 to |priors|
      invariant product == ContextProduct(priors[..i])
    {
      assert priors[..i + 1][..i] == priors[..i];
      product := product * Clamp(priors[i], 0.0, 1.0);
    }
    assert priors[..|priors|] == priors;
    score := 100.0 * product;
  }

  // ---- risk --------------------------------------------------------------

  /** The names of the risk predicates that hold of a session. */
  type RiskContext = set<string>

  datatype RiskRule = RiskRule(name: string, severity: real, check: RiskContext -> bool)

  function Rule(name: string, severity: real): RiskRule {
    RiskRule(name, severity, context => name in context)
  }

  const DEFAULT_RULES: seq<RiskRule> := [
    Rule("impossible_travel", 40.0),
    Rule("known_bad_device", 40.0),
    Rule("ip_reputation", 20.0),
    Rule("tor_or_proxy", 15.0),
    Rule("replay_attempt", 40.0),
    Rule("velocity_abuse", 25.0),
    Rule("device_dna_drift", 20.0),
    Rule("behavioral_anomaly", 10.0)
  ]

  function RiskTotal(context: RiskContext, rules: seq<RiskRule>): real {
    if rules == [] then 0.0
    else
      var last := rules[|rules| - 1];
      RiskTotal(context, rules[..|rules| - 1]) + (if last.check(context) then last.severity else 0.0)
  }

  function Triggered(context: RiskContext, rules: seq<RiskRule>): seq<string> {
    if rules == [] then []
    else
      var last := rules[|rules| - 1];
      Triggered(context, rules[..|rules| - 1]) + (if last.check(context) then [last.name] else [])
  }

  /** `rules or DEFAULT_RULES`: a missing list and an empty one both mean the default. */
  function ActiveRules(rules: Option<seq<RiskRule>>): seq<RiskRule> {
    if rules.None? || rules.value == [] then DEFAULT_RULES else rules.value
  }

  method EvaluateRisk(context: RiskContext, rules: Option<seq<RiskRule>>)
    returns (total: real, triggered: seq<string>)
    ensures rules.Some? && rules.value != [] ==>
      total == RiskTotal(context, rules.value) && triggered == Triggered(context, rules.value)
    ensures rules.None? || rules.value == [] ==>
      total == RiskTotal(context, DEFAULT_RULES) && triggered == Triggered(context, DEFAULT_RULES)
  {
    var active := ActiveRules(rules);
    total, triggered := 0.0, [];
    for i := 0 to |active|
      invariant total == RiskTotal(context, active[..i])
      invariant triggered == Triggered(context, active[..i])
    {
      assert active[..i + 1][..i] == active[..i];
      var r := active[i];
      if r.check(context) {
        total := total + r.severity;
        triggered := triggered + [r.name];
      }
    }
    assert active[..|active|] == active;
  }

  /** A rule is reported exactly when it fires. */
  lemma {:induction false} TriggeredExactly(context: RiskContext, rules: seq<RiskRule>, name: string)
    ensures name in Triggered(context, rules) <==> exists r | r in rules :: r.name == name && r.check(context)
  {
    if rules != [] {
      var front, last := rules[..|rules| - 1], rules[|rules| - 1];
      TriggeredExactly(context, front, name);
      assert rules == front + [last];
    }
  }

  /** The names come in the order of the rules, one for each that fires. */
  lemma {:induction false} TriggeredInOrder(context: RiskContext, a: seq<RiskRule>, b: seq<RiskRule>)
    ensures Triggered(context, a + b) == Triggered(context, a) + Triggered(context, b)
  {
    if b == [] {
      assert a + b == a;
    } else {
      var front, last := b[..|b| - 1], b[|b| - 1];
      assert b == front + [last];
      TriggeredInOrder(context, a, front);
      assert a + b == (a + front) + [last];
      OneMoreName(context, a + front, last);
      OneMoreName(context, front, last);
    }
  }

  lemma OneMoreName(context: RiskContext, rules: seq<RiskRule>, r: RiskRule)
    ensures Triggered(context, rules + [r]) == Triggered(context, rules) + (if r.check(context) then [r.name] else [])
  {
    assert (rules + [r])[..|rules|] == rules;
  }

  // ---- score and decision ------------------------------------------------

  datatype TrustWeights = TrustWeights(identity: real, history: real, context: real, risk: real) {
    predicate Valid() {
      identity >= 0.0 && history >= 0.0 && context >= 0.0 && risk >= 0.0
    }
  }

  const DEFAULT_WEIGHTS := TrustWeights(0.35, 0.30, 0.15, 0.20)

  datatype Decision = ALLOW | STEP_UP | DENY {
    function Rank(): nat {
      match this
      case DENY => 0
      case STEP_UP => 1
      case ALLOW => 2
    }
  }

  datatype TrustPolicy = TrustPolicy(allow: real, stepUp: real) {
    function Decide(score: real): Decision {
      if score >= allow then ALLOW
      else if score >= stepUp then STEP_UP
      else DENY
    }
  }

  const DEFAULT_POLICY := TrustPolicy(80.0, 50.0)

  /** The four components of a session: identity distance, history, context and risk. */
  datatype Evidence = Evidence(distance: Option<real>, history: real, context: real, risk: real) {
    function Distance(): real {
      if distance.None? then 1.0 else distance.value
    }
  }

  function Composite(w: TrustWeights, identityScore: real, history: real, context: real, risk: real): real {
    Times(w.identity, identityScore) + Times(w.history, history) + Times(w.context, context) - Times(w.risk, risk)
  }

  function TrustScore(w: TrustWeights, conf: real, e: Evidence): real {
    Clamp(Composite(w, IdentityScore(e.distance, conf), e.history, e.context, e.risk), 0.0, 100.0)
  }

  // ---- properties --------------------------------------------------------

  lemma ContextStep(priors: seq<real>, product: real, before: real, p: real)
    requires priors != [] && product == ContextProduct(priors)
    requires before == ContextProduct(priors[..|priors| - 1]) && p == Clamp(priors[|priors| - 1], 0.0, 1.0)
    ensures product == Times(before, p) && 0.0 <= p <= 1.0
  {
  }

  /** One more prior multiplies the score, as far as it lies between 0 and 1; none at all gives 100. */
  lemma ContextScoreGrows(priors: seq<real>, p: real, score: real)
    requires score == ContextScore(priors)
    ensures ContextScore([]) == 100.0
    ensures p <= 0.0 ==> ContextScore(priors + [p]) == 0.0
    ensures 0.0 <= p <= 1.0 ==> ContextScore(priors + [p]) == score * p
    ensures p >= 1.0 ==> ContextScore(priors + [p]) == score
  {
    var next, before := priors + [p], ContextProduct(priors);
    assert next[..|priors|] == priors;
    ContextStep(next, ContextProduct(next), before, Clamp(p, 0.0, 1.0));
    assert 100.0 * (before * p) == (100.0 * before) * p;
  }

  /** The context product is conjunctive: never above its smallest clamped prior. */
  lemma {:induction false} ContextProductBounds(priors: seq<real>)
    ensures 0.0 <= ContextProduct(priors) <= 1.0
    ensures forall i | 0 <= i < |priors| :: ContextProduct(priors) <= Clamp(priors[i], 0.0, 1.0)
  {
    if priors != [] {
      var n := |priors|;
      var before, p, product := ContextProduct(priors[..n - 1]), Clamp(priors[n - 1], 0.0, 1.0), ContextProduct(priors);
      ContextProductBounds(priors[..n - 1]);
      ContextStep(priors, product, before, p);
      ProductOfFractions(before, p, product);
      forall i | 0 <= i < n ensures product <= Clamp(priors[i], 0.0, 1.0) {
        if i < n - 1 {
          assert priors[i] == priors[..n - 1][i];
        }
      }
    }
  }

  lemma ProductOfFractions(x: real, y: real, xy: real)
    requires 0.0 <= x <= 1.0 && 0.0 <= y <= 1.0 && xy == Times(x, y)
    ensures 0.0 <= xy <= x && xy <= y
  {
    NonNegative(x, y);
    NonNegative(1.0 - x, y);
    NonNegative(x, 1.0 - y);
  }

  lemma ProductOrder(x: real, y: real, xy: real, x': real, y': real, xy': real)
    requires 0.0 <= x <= x' && 0.0 <= y <= y' && xy == Times(x, y) && xy' == Times(x', y')
    ensures xy <= xy'
  {
    NonNegative(x' - x, y');
    NonNegative(x, y' - y);
  }

  /** Raising any priors never lowers the context score. */
  lemma {:induction false} ContextScoreOrder(low: seq<real>, high: seq<real>)
    requires |low| == |high| && forall i | 0 <= i < |low| :: low[i] <= high[i]
    ensures ContextScore(low) <= ContextScore(high)
  {
    if low != [] {
      var n := |low|;
      var before, p, product := ContextProduct(low[..n - 1]), Clamp(low[n - 1], 0.0, 1.0), ContextProduct(low);
      var before', p', product' := ContextProduct(high[..n - 1]), Clamp(high[n - 1], 0.0, 1.0), ContextProduct(high);
      ContextScoreOrder(low[..n - 1], high[..n - 1]);
      ContextProductBounds(low[..n - 1]);
      ContextStep(low, product, before, p);
      ContextStep(high, product', before', p');
      ProductOrder(before, p, product, before', p', product');
    }
  }

  /** Taking one prior out of the product, wherever it stands. */
  lemma {:induction false} ContextProductWithout(priors: seq<real>, i: nat, rest: real, x: real)
    requires i < |priors| && rest == ContextProduct(priors[..i] + priors[i + 1..]) && x == Clamp(priors[i], 0.0, 1.0)
    ensures ContextProduct(priors) == Times(rest, x)
  {
    var n := |priors|;
    if i == n - 1 {
      assert priors[..i] + priors[i + 1..] == priors[..n - 1];
    } else {
      var front, removed := priors[..n - 1], priors[..i] + priors[i + 1..];
      assert removed[..n - 2] == front[..i] + front[i + 1..];
      var before, rest' := ContextProduct(front), ContextProduct(removed[..n - 2]);
      var y := Clamp(priors[n - 1], 0.0, 1.0);
      ContextProductWithout(front, i, rest', x);
      ContextStep(priors, ContextProduct(priors), before, y);
      ContextStep(removed, rest, rest', y);
      SwapFactors(rest', x, y, before, rest);
    }
  }

  lemma SwapFactors(r: real, x: real, y: real, rx: real, ry: real)
    requires rx == Times(r, x) && ry == Times(r, y)
    ensures Times(rx, y) == Times(ry, x)
  {
  }

  lemma RemoveOne<T>(s: seq<T>, i: nat)
    requires i < |s|
    ensures multiset(s) == multiset(s[..i] + s[i + 1..]) + multiset{s[i]}
  {
    assert s == s[..i] + [s[i]] + s[i + 1..];
  }

  /** The context score does not depend on the order of the priors. */
  lemma {:induction false} ContextScoreOrderFree(a: seq<real>, b: seq<real>)
    requires multiset(a) == multiset(b)
    ensures ContextScore(a) == ContextScore(b)
  {
    assert |multiset(a)| == |a| && |multiset(b)| == |b|;
    if a != [] {
      var n, last := |a|, a[|a| - 1];
      assert a == a[..n - 1] + [last];
      assert last in multiset(b);
      var i :| 0 <= i < |b| && b[i] == last;
      var rest := b[..i] + b[i + 1..];
      RemoveOne(b, i);
      assert multiset(a[..n - 1]) == multiset(a) - multiset{last} == multiset(rest);
      ContextScoreOrderFree(a[..n - 1], rest);
      var x, front := Clamp(last, 0.0, 1.0), ContextProduct(rest);
      ContextProductWithout(b, i, front, x);
      ContextStep(a, ContextProduct(a), front, x);
    }
  }

  /** Risk adds up: over lists, and for one rule to its severity if it fires and to nothing if not. */
  lemma {:induction false} RiskAddsUp(context: RiskContext, a: seq<RiskRule>, b: seq<RiskRule>)
    ensures RiskTotal(context, a + b) == RiskTotal(context, a) + RiskTotal(context, b)
    ensures forall r: RiskRule :: RiskTotal(context, [r]) == if r.check(context) then r.severity else 0.0
  {
    if b == [] {
      assert a + b == a;
    } else {
      var front := b[..|b| - 1];
      assert (a + b)[..|a + b| - 1] == a + front;
      RiskAddsUp(context, a, front);
    }
  }

  lemma OneRule(context: RiskContext, rules: seq<RiskRule>, name: string, severity: real)
    ensures RiskTotal(context, rules + [Rule(name, severity)]) ==
      RiskTotal(context, rules) + (if name in context then severity else 0.0)
  {
    var next := rules + [Rule(name, severity)];
    assert next[..|rules|] == rules;
  }

  /** The eight rules that a server runs with, and what each of them costs. */
  lemma DefaultRisk(context: RiskContext)
    ensures RiskTotal(context, DEFAULT_RULES) ==
      (if "impossible_travel" in context then 40.0 else 0.0)
      + (if "known_bad_device" in context then 40.0 else 0.0)
      + (if "ip_reputation" in context then 20.0 else 0.0)
      + (if "tor_or_proxy" in context then 15.0 else 0.0)
      + (if "replay_attempt" in context then 40.0 else 0.0)
      + (if "velocity_abuse" in context then 25.0 else 0.0)
      + (if "device_dna_drift" in context then 20.0 else 0.0)
      + (if "behavioral_anomaly" in context then 10.0 else 0.0)
  {
    var r := DEFAULT_RULES;
    forall n | 0 <= n < 8 ensures r[..n + 1] == r[..n] + [r[n]] && r[..n + 1][..n] == r[..n] {
    }
    OneRule(context, r[..0], "impossible_travel", 40.0);
    OneRule(context, r[..1], "known_bad_device", 40.0);
    OneRule(context, r[..2], "ip_reputation", 20.0);
    OneRule(context, r[..3], "tor_or_proxy", 15.0);
    OneRule(context, r[..4], "replay_attempt", 40.0);
    OneRule(context, r[..5], "velocity_abuse", 25.0);
    OneRule(context, r[..6], "device_dna_drift", 20.0);
    OneRule(context, r[..7], "behavioral_anomaly", 10.0);
    assert r[..8] == r && RiskTotal(context, r[..0]) == 0.0;
  }

  ghost predicate Harmless(rules: seq<RiskRule>) {
    forall i | 0 <= i < |rules| :: rules[i].severity >= 0.0
  }

  /** With severities that are not negative, risk is not negative and grows with the rules that fire. */
  lemma {:induction false} RiskOrder(fewer: RiskContext, more: RiskContext, rules: seq<RiskRule>)
    requires Harmless(rules)
    requires forall i | 0 <= i < |rules| :: rules[i].check(fewer) ==> rules[i].check(more)
    ensures 0.0 <= RiskTotal(fewer, rules) <= RiskTotal(more, rules)
  {
    if rules != [] {
      RiskOrder(fewer, more, rules[..|rules| - 1]);
    }
  }

  /** Each component counts with its own weight, and risk against the rest. */
  lemma EachWeight(w: TrustWeights, s: real, h: real, c: real, r: real, more: real)
    ensures Composite(w, 0.0, 0.0, 0.0, 0.0) == 0.0
    ensures Composite(w, s + more, h, c, r) == Composite(w, s, h, c, r) + w.identity * more
    ensures Composite(w, s, h + more, c, r) == Composite(w, s, h, c, r) + w.history * more
    ensures Composite(w, s, h, c + more, r) == Composite(w, s, h, c, r) + w.context * more
    ensures Composite(w, s, h, c, r + more) == Composite(w, s, h, c, r) - w.risk * more
  {
  }

  /**
    Score order, for any non-negative weights and any policy: the score stays in
    [0, 100], and neither it nor the decision gets worse when the distance falls,
    the history or the context rises, or the risk falls.
  */
  lemma ScoreOrder(w: TrustWeights, policy: TrustPolicy, conf: real, e: Evidence, e': Evidence)
    requires w.Valid() && conf >= 0.0
    requires e'.Distance() <= e.Distance() && e'.history >= e.history
    requires e'.context >= e.context && e'.risk <= e.risk
    ensures 0.0 <= TrustScore(w, conf, e) <= TrustScore(w, conf, e') <= 100.0
    ensures policy.Decide(TrustScore(w, conf, e)).Rank() <= policy.Decide(TrustScore(w, conf, e')).Rank()
  {
    var s, s' := IdentityScore(e.distance, conf), IdentityScore(e'.distance, conf);
    IdentityOrder(e.Distance(), e'.Distance(), conf, s, s');
    CompositeOrder(w, s, s', e.history, e'.history, e.context, e'.context, e.risk, e'.risk);
  }

  lemma CompositeOrder(w: TrustWeights, s: real, s': real, h: real, h': real, c: real, c': real, r: real, r': real)
    requires w.Valid() && s <= s' && h <= h' && c <= c' && r' <= r
    ensures Composite(w, s, h, c, r) <= Composite(w, s', h', c', r')
  {
    TimesOrder(w.identity, s, s');
    TimesOrder(w.history, h, h');
    TimesOrder(w.context, c, c');
    TimesOrder(w.risk, r', r);
  }

  lemma IdentityOrder(d: real, d': real, conf: real, s: real, s': real)
    requires d' <= d && conf >= 0.0
    requires s == 100.0 * (1.0 - d / 2.0) * conf && s' == 100.0 * (1.0 - d' / 2.0) * conf
    ensures s <= s'
  {
    NonNegative(d - d', conf);
  }
}

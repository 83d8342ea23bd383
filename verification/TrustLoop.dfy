/**
  The closed loop of trust: a session is judged on the outcomes of earlier
  sessions, and its own outcome is recorded for later ones.
*/
module TrustLoop {
  import opened Prelude
  import opened History
  import opened Identity
  import opened Scoring
  import opened Storage
  import opened VectorDigest
  import opened Vectors

  /** Device, behaviour and context layers are all present. */
  const N_EFF: nat := 3

  /** One verified proof: whose it is, the vector it was compiled to, and its signals. */
  datatype Session = Session(subject: string, iv: IdentityVector, priors: seq<real>, risk: RiskContext)

  datatype Verdict = Verdict(score: real, decision: Decision, flags: seq<string>)

  // ---- one subject -------------------------------------------------------

  /** What is known of one subject. */
  datatype Standing = Standing(baseline: Option<IdentityVector>, past: seq<bool>)

  function Conf(c: Config): real {
    Confidence(N_EFF, c.fade)
  }

  function HistoryScore(c: Config, past: seq<bool>): real {
    Score(Window(past, c.k), LAMBDA_DEFAULT)
  }

  function EvidenceOf(c: Config, st: Standing, s: Session): Evidence {
    Evidence(
      if st.baseline.None? then None else Some(Distance(s.iv.vector, st.baseline.value.vector)),
      HistoryScore(c, st.past),
      ContextScore(s.priors),
      RiskTotal(s.risk, DEFAULT_RULES))
  }

  /** The score of the evidence, the decision it leads to, and the risk rules that fired. */
  function Assess(c: Config, e: Evidence, risk: RiskContext): Verdict {
    var score := TrustScore(DEFAULT_WEIGHTS, Conf(c), e);
    Verdict(score, DEFAULT_POLICY.Decide(score), Triggered(risk, DEFAULT_RULES))
  }

  function Judge(c: Config, st: Standing, s: Session): Verdict {
    Assess(c, EvidenceOf(c, st, s), s.risk)
  }

  /**
    A first session enrols its vector whatever the decision and is not recorded;
    a later one is recorded; ALLOW lets the baseline drift. A drift that raises
    an exception leaves the baseline as it is.
  */
  function LearnedAs(c: Config, st: Standing, s: Session, decision: Decision): Standing {
    var enrolled := if st.baseline.None? then s.iv else st.baseline.value;
    var drifted := if decision == ALLOW then Updated(c, enrolled, s.iv, ALPHA_DEFAULT) else None;
    Standing(
      Some(if drifted.Some? then drifted.value else enrolled),
      if st.baseline.None? then st.past else st.past + [decision != DENY])
  }

  function Learned(c: Config, st: Standing, s: Session): Standing {
    LearnedAs(c, st, s, Judge(c, st, s).decision)
  }

  // ---- every subject -----------------------------------------------------

  function StandingOf(t: Tables, subject: string): Standing {
    Standing(if subject in t.subjects then Some(t.subjects[subject]) else None, LogOf(t.history, subject))
  }

  function JudgeIn(c: Config, t: Tables, s: Session): Verdict {
    Judge(c, StandingOf(t, s.subject), s)
  }

  function LearnAs(c: Config, t: Tables, s: Session, decision: Decision): Tables {
    var st := StandingOf(t, s.subject);
    Tables(
      t.subjects[s.subject := LearnedAs(c, st, s, decision).baseline.value],
      if st.baseline.None? then t.history else t.history + [Outcome(s.subject, decision != DENY)])
  }

  function Learn(c: Config, t: Tables, s: Session): Tables {
    LearnAs(c, t, s, JudgeIn(c, t, s).decision)
  }

  /** The tables after a run of sessions, the last of which is the newest. */
  function After(c: Config, t: Tables, run: seq<Session>): Tables {
    if run == [] then t else Learn(c, After(c, t, run[..|run| - 1]), run[|run| - 1])
  }

  ghost predicate StandingInv(c: Config, st: Standing) {
    if st.baseline.None? then st.past == [] else WellFormed(c, st.baseline.value)
  }

  /** Every baseline is well formed, and only subjects with one have a history. */
  ghost predicate TrustInv(c: Config, t: Tables) {
    forall subject :: StandingInv(c, StandingOf(t, subject))
  }

  ghost predicate WellFormedRun(c: Config, run: seq<Session>) {
    forall i | 0 <= i < |run| :: WellFormed(c, run[i].iv)
  }

  // ---- one session at a time ---------------------------------------------

  lemma LearnedKeepsInv(c: Config, st: Standing, s: Session)
    requires c.Valid() && StandingInv(c, st) && WellFormed(c, s.iv)
    ensures StandingInv(c, Learned(c, st, s)) && Learned(c, st, s).baseline.Some?
  {
    var enrolled := if st.baseline.None? then s.iv else st.baseline.value;
    UpdateIsWellFormed(c, enrolled, s.iv, ALPHA_DEFAULT, Distance(enrolled.vector, s.iv.vector));
  }

  lemma LearnAsIsLocal(c: Config, t: Tables, s: Session, decision: Decision, subject: string)
    ensures StandingOf(LearnAs(c, t, s, decision), subject) ==
      if subject == s.subject then LearnedAs(c, StandingOf(t, subject), s, decision) else StandingOf(t, subject)
  {
    LogOfAppended(t.history, Outcome(s.subject, decision != DENY), subject);
  }

  /** A session changes its own subject's standing and nobody else's. */
  lemma LearnIsLocal(c: Config, t: Tables, s: Session, subject: string)
    ensures StandingOf(Learn(c, t, s), subject) ==
      if subject == s.subject then Learned(c, StandingOf(t, subject), s) else StandingOf(t, subject)
  {
    LearnAsIsLocal(c, t, s, JudgeIn(c, t, s).decision, subject);
  }

  lemma {:induction false} AfterKeepsInv(c: Config, t: Tables, run: seq<Session>)
    requires c.Valid() && TrustInv(c, t) && WellFormedRun(c, run)
    ensures TrustInv(c, After(c, t, run))
  {
    if run != [] {
      var before, s := After(c, t, run[..|run| - 1]), run[|run| - 1];
      AfterKeepsInv(c, t, run[..|run| - 1]);
      forall subject ensures StandingInv(c, StandingOf(Learn(c, before, s), subject)) {
        LearnIsLocal(c, before, s, subject);
        LearnedKeepsInv(c, StandingOf(before, s.subject), s);
      }
    }
  }

  // ---- the range of the score --------------------------------------------

  lemma ScoreFormula(conf: real, e: Evidence)
    ensures TrustScore(DEFAULT_WEIGHTS, conf, e) == Clamp(
      0.35 * IdentityScore(e.distance, conf) + 0.30 * e.history + 0.15 * e.context - 0.20 * e.risk, 0.0, 100.0)
  {
  }

  /** Three layers' confidence. */
  lemma ConfIsCubic(c: Config, f: real, f2: real)
    requires f == c.fade && f2 == f * f
    ensures Conf(c) == 1.0 - f * f2
  {
    assert Power(f, 2) == f * Power(f, 1) && Power(f, 1) == f * Power(f, 0);
    assert Power(f, 3) == f * Power(f, 2);
  }

  /** The verdict on a session, in numbers: before the clamp its score is `x`. */
  lemma VerdictFormula(c: Config, st: Standing, s: Session, d: real, conf: real, x: real)
    requires d == (if st.baseline.None? then 1.0 else Distance(s.iv.vector, st.baseline.value.vector))
    requires conf == Conf(c)
    requires x == 35.0 * conf - 17.5 * (d * conf) + 0.30 * HistoryScore(c, st.past)
                  + 0.15 * ContextScore(s.priors) - 0.20 * RiskTotal(s.risk, DEFAULT_RULES)
    ensures var v := Judge(c, st, s);
      && v.score == (if x < 0.0 then 0.0 else if x > 100.0 then 100.0 else x)
      && (v.decision == ALLOW <==> v.score >= 80.0) && (v.decision == DENY <==> v.score < 50.0)
      && v.flags == Triggered(s.risk, DEFAULT_RULES)
  {
    var e := EvidenceOf(c, st, s);
    ScoreFormula(conf, e);
    IdentityIsLinear(d, conf);
    ScaledIdentity(IdentityScore(e.distance, conf), d, conf);
  }

  lemma ScaledIdentity(score: real, d: real, conf: real)
    requires score == 100.0 * conf - 50.0 * (d * conf)
    ensures 0.35 * score == 35.0 * conf - 17.5 * (d * conf)
  {
  }

  /** Signals that cost `extra` more lower the score by a fifth of it, where neither score is clamped. */
  lemma RiskLowers(c: Config, st: Standing, s: Session, s': Session, extra: real)
    requires s'.iv == s.iv && s'.priors == s.priors
    requires RiskTotal(s'.risk, DEFAULT_RULES) == RiskTotal(s.risk, DEFAULT_RULES) + extra
    ensures 0.0 < Judge(c, st, s).score < 100.0 && 0.0 < Judge(c, st, s').score < 100.0 ==>
      Judge(c, st, s').score == Judge(c, st, s).score - 0.20 * extra
  {
    var d := if st.baseline.None? then 1.0 else Distance(s.iv.vector, st.baseline.value.vector);
    var conf := Conf(c);
    var x := 35.0 * conf - 17.5 * (d * conf) + 0.30 * HistoryScore(c, st.past)
             + 0.15 * ContextScore(s.priors) - 0.20 * RiskTotal(s.risk, DEFAULT_RULES);
    VerdictFormula(c, st, s, d, conf, x);
    VerdictFormula(c, st, s', d, conf, x - 0.20 * extra);
  }

  lemma IdentityScoreRange(distance: Option<real>, conf: real, score: real)
    requires conf >= 0.0 && score == IdentityScore(distance, conf)
    requires distance.Some? ==> 0.0 <= distance.value <= 2.0
    ensures 0.0 <= score <= 100.0 * conf
    ensures distance.None? ==> score == 50.0 * conf
    ensures distance == Some(0.0) ==> score == 100.0 * conf
  {
    if distance.Some? {
      var d := distance.value;
      IdentityOrder(d, 0.0, conf, score, 100.0 * (1.0 - 0.0 / 2.0) * conf);
      IdentityOrder(2.0, d, conf, 100.0 * (1.0 - 2.0 / 2.0) * conf, score);
    }
  }

  lemma DefaultRulesAreHarmless(risk: RiskContext)
    ensures RiskTotal(risk, DEFAULT_RULES) >= 0.0
    ensures risk == {} ==> RiskTotal(risk, DEFAULT_RULES) == 0.0
  {
    assert Harmless(DEFAULT_RULES);
    RiskOrder(risk, risk, DEFAULT_RULES);
    if risk == {} {
      NothingFires(DEFAULT_RULES);
    }
  }

  lemma {:induction false} NothingFires(rules: seq<RiskRule>)
    requires forall i | 0 <= i < |rules| :: !rules[i].check({})
    ensures RiskTotal({}, rules) == 0.0
  {
    if rules != [] {
      NothingFires(rules[..|rules| - 1]);
    }
  }

  /** The bounds of a session's evidence, in any reachable standing. */
  lemma EvidenceRange(c: Config, st: Standing, s: Session)
    requires c.Valid() && StandingInv(c, st) && WellFormed(c, s.iv)
    ensures 0.0 < Conf(c) < 1.0
    ensures var e := EvidenceOf(c, st, s);
      && 0.0 <= e.history <= 100.0 && 0.0 <= e.context <= 100.0 && e.risk >= 0.0
      && (st.baseline.None? <==> e.distance == None)
      && (st.baseline.None? ==> e.history == NEUTRAL_PRIOR)
      && (st.baseline.Some? ==> 0.0 <= e.distance.value <= 1.0)
  {
    ConfidenceRange(N_EFF, c.fade);
    ScoreInRange(Window(st.past, c.k), LAMBDA_DEFAULT);
    ContextProductBounds(s.priors);
    DefaultRulesAreHarmless(s.risk);
    if st.baseline.Some? {
      DistanceRange(s.iv.vector, st.baseline.value.vector);
    }
  }

  /**
    A first session scores at most `17.5 * conf + 30` and is denied; any session
    scores at most `35 * conf + 45` and never reaches ALLOW.
  */
  lemma Plateau(c: Config, st: Standing, s: Session)
    requires c.Valid() && StandingInv(c, st) && WellFormed(c, s.iv)
    ensures 0.0 <= Judge(c, st, s).score <= 35.0 * Conf(c) + 45.0 < 80.0
    ensures Judge(c, st, s).decision != ALLOW
    ensures st.baseline.None? ==> Judge(c, st, s).score <= 17.5 * Conf(c) + 30.0 && Judge(c, st, s).decision == DENY
  {
    var e, conf := EvidenceOf(c, st, s), Conf(c);
    EvidenceRange(c, st, s);
    ScoreFormula(conf, e);
    IdentityScoreRange(e.distance, conf, IdentityScore(e.distance, conf));
  }

  /** Hence the baseline never drifts: it stays the first vector enrolled. */
  lemma LearnedExactly(c: Config, st: Standing, s: Session)
    requires c.Valid() && StandingInv(c, st) && WellFormed(c, s.iv)
    ensures Learned(c, st, s) ==
      if st.baseline.None? then Standing(Some(s.iv), [])
      else Standing(st.baseline, st.past + [Judge(c, st, s).decision == STEP_UP])
  {
    Plateau(c, st, s);
  }

  // ---- whole runs --------------------------------------------------------

  /** The sessions of one subject. */
  function Of(run: seq<Session>, subject: string): (own: seq<Session>)
    ensures |own| <= |run|
  {
    if run == [] then []
    else
      var last := run[|run| - 1];
      Of(run[..|run| - 1], subject) + (if last.subject == subject then [last] else [])
  }

  function LearnedFrom(c: Config, st: Standing, own: seq<Session>): Standing {
    if own == [] then st else Learned(c, LearnedFrom(c, st, own[..|own| - 1]), own[|own| - 1])
  }

  lemma LearnedFromAppend(c: Config, st: Standing, own: seq<Session>, s: Session)
    ensures LearnedFrom(c, st, own + [s]) == Learned(c, LearnedFrom(c, st, own), s)
  {
    assert (own + [s])[..|own|] == own;
  }

  lemma OfAppended(run: seq<Session>, subject: string)
    requires run != []
    ensures var front, last := run[..|run| - 1], run[|run| - 1];
      Of(run, subject) == if last.subject == subject then Of(front, subject) + [last] else Of(front, subject)
  {
  }

  /** However sessions interleave, a subject's standing comes from its own sessions alone. */
  lemma {:induction false} Noninterference(c: Config, t: Tables, run: seq<Session>, subject: string)
    ensures StandingOf(After(c, t, run), subject) == LearnedFrom(c, StandingOf(t, subject), Of(run, subject))
  {
    if run != [] {
      var front, last := run[..|run| - 1], run[|run| - 1];
      var own := Of(front, subject);
      Noninterference(c, t, front, subject);
      LearnIsLocal(c, After(c, t, front), last, subject);
      OfAppended(run, subject);
      if last.subject == subject {
        LearnedFromAppend(c, StandingOf(t, subject), own, last);
      }
    }
  }

  lemma AfterOneMore(c: Config, t: Tables, run: seq<Session>, s: Session)
    ensures After(c, t, run + [s]) == Learn(c, After(c, t, run), s)
  {
    assert (run + [s])[..|run|] == run;
  }

  lemma LastOfSum(a: seq<Session>, b: seq<Session>) returns (front: seq<Session>, last: Session)
    requires b != []
    ensures front == b[..|b| - 1] && b == front + [last] && a + b == (a + front) + [last]
  {
    front, last := b[..|b| - 1], b[|b| - 1];
  }

  lemma {:induction false} AfterAppend(c: Config, t: Tables, a: seq<Session>, b: seq<Session>)
    ensures After(c, t, a + b) == After(c, After(c, t, a), b)
    decreases |b|
  {
    if b == [] {
      assert a + b == a;
    } else {
      var front, last := LastOfSum(a, b);
      AfterAppend(c, t, a, front);
      AfterSame(c, t, a + front, After(c, t, a), front, last);
    }
  }

  lemma AfterSame(c: Config, t: Tables, run: seq<Session>, t': Tables, run': seq<Session>, s: Session)
    requires After(c, t, run) == After(c, t', run')
    ensures After(c, t, run + [s]) == After(c, t', run' + [s])
  {
    AfterOneMore(c, t, run, s);
    AfterOneMore(c, t', run', s);
  }

  /** Whether each of a subject's sessions was accepted, judged when it took place. */
  function Outcomes(c: Config, t: Tables, run: seq<Session>, subject: string): seq<bool> {
    if run == [] then []
    else
      var front, last := run[..|run| - 1], run[|run| - 1];
      Outcomes(c, t, front, subject) +
      (if last.subject == subject then [JudgeIn(c, After(c, t, front), last).decision != DENY] else [])
  }

  /** The standing that a subject's sessions and their outcomes leave behind. */
  predicate Recorded(st: Standing, own: seq<Session>, outcomes: seq<bool>) {
    && |outcomes| == |own|
    && (own == [] ==> st == Standing(None, []))
    && (own != [] ==> st == Standing(Some(own[0].iv), outcomes[1..]))
  }

  lemma RecordedStep(c: Config, st: Standing, own: seq<Session>, outcomes: seq<bool>, s: Session)
    requires c.Valid() && StandingInv(c, st) && WellFormed(c, s.iv) && Recorded(st, own, outcomes)
    ensures Recorded(Learned(c, st, s), own + [s], outcomes + [Judge(c, st, s).decision != DENY])
  {
    Plateau(c, st, s);
    LearnedExactly(c, st, s);
  }

  lemma RecordedAnyway(c: Config, t: Tables, s: Session, subject: string, own: seq<Session>, outcomes: seq<bool>)
    requires c.Valid() && TrustInv(c, t) && WellFormed(c, s.iv)
    requires Recorded(StandingOf(t, subject), own, outcomes)
    ensures Recorded(StandingOf(Learn(c, t, s), subject),
                     if s.subject == subject then own + [s] else own,
                     if s.subject == subject then outcomes + [JudgeIn(c, t, s).decision != DENY] else outcomes)
  {
    LearnIsLocal(c, t, s, subject);
    assert StandingInv(c, StandingOf(t, subject));
    if s.subject == subject {
      RecordedStep(c, StandingOf(t, subject), own, outcomes, s);
    }
  }

  /**
    Conservation: a subject has a baseline exactly when it had a session, the
    baseline is its first vector for ever, and its log holds the outcome of each
    of its sessions but the first, in order.
  */
  lemma {:induction false} Conservation(c: Config, run: seq<Session>, subject: string)
    requires c.Valid() && WellFormedRun(c, run)
    ensures Recorded(StandingOf(After(c, EMPTY, run), subject), Of(run, subject), Outcomes(c, EMPTY, run, subject))
  {
    if run != [] {
      var front, last := run[..|run| - 1], run[|run| - 1];
      Conservation(c, front, subject);
      AfterKeepsInv(c, EMPTY, front);
      var before, own, outcomes := After(c, EMPTY, front), Of(front, subject), Outcomes(c, EMPTY, front, subject);
      RecordedAnyway(c, before, last, subject, own, outcomes);
      if last.subject != subject {
        assert outcomes + [] == outcomes && own + [] == own;
      }
    }
  }

  // ---- what an outcome makes of the history score ------------------------

  lemma WindowGrows(past: seq<bool>, k: nat, outcome: bool)
    ensures |past| < k ==> Window(past, k) == past && Window(past + [outcome], k) == past + [outcome]
    ensures |past| >= k > 0 ==>
      |Window(past, k)| == k && Window(past + [outcome], k) == Window(past, k)[1..] + [outcome]
  {
  }

  /**
    The recurrence of the history score, which determines it. With `x` the score
    times `1 - 0.85 ** n` for the `n` outcomes it is made of, a new outcome adds 15
    if it was accepted, to 0.85 of `x`; when the window is full the oldest outcome
    takes `15 * 0.85 ** k` with it if it was.
  */
  lemma HistoryRecurs(c: Config, past: seq<bool>, outcome: bool, r: real, x: real, r': real, x': real)
    requires c.k > 0
    requires var n := |Window(past, c.k)|;
      r == 1.0 - Power(0.85, n) && r' == 1.0 - Power(0.85, if n < c.k then n + 1 else c.k)
    requires x == HistoryScore(c, past) * r && x' == HistoryScore(c, past + [outcome]) * r'
    ensures past == [] ==> HistoryScore(c, past) == 50.0 && x == 0.0
    ensures x' == (if outcome then 15.0 else 0.0) + 0.85 * x
                  - (if |past| >= c.k && past[|past| - c.k] then 15.0 * (1.0 - r) else 0.0)
  {
    var dq, s, s' := Window(past, c.k), HistoryScore(c, past), HistoryScore(c, past + [outcome]);
    WindowGrows(past, c.k, outcome);
    if |past| < c.k {
      ScoreGrows(dq, LAMBDA_DEFAULT, outcome, 0.15, s, r, x, s', r', x');
    } else {
      WindowIsEnd(past, c.k);
      ScoreSlides(dq, LAMBDA_DEFAULT, outcome, 0.15, 1.0 - r, r, s, x, s', x');
    }
  }

  // ---- lockout -----------------------------------------------------------

  /** Even a perfect session, at distance zero with no risk, would score below the step-up threshold. */
  predicate Locked(c: Config, st: Standing) {
    35.0 * Conf(c) + 15.0 + 0.30 * HistoryScore(c, st.past) < 50.0
  }

  /** An accepted session never lowers the history score and a denied one never raises it. */
  lemma RecordMovesScore(c: Config, past: seq<bool>, accepted: bool)
    ensures accepted ==> HistoryScore(c, past + [accepted]) >= HistoryScore(c, past)
    ensures !accepted ==> HistoryScore(c, past + [accepted]) <= HistoryScore(c, past)
  {
    AppendedIsWindow(past, c.k, accepted);
    RecordIsMonotone(Window(past, c.k), c.k, LAMBDA_DEFAULT, accepted);
  }

  lemma LockedIsAbsorbing(c: Config, st: Standing, s: Session)
    requires c.Valid() && StandingInv(c, st) && WellFormed(c, s.iv) && Locked(c, st)
    ensures Judge(c, st, s).decision == DENY
    ensures Locked(c, Learned(c, st, s))
  {
    var e, conf := EvidenceOf(c, st, s), Conf(c);
    EvidenceRange(c, st, s);
    ScoreFormula(conf, e);
    IdentityScoreRange(e.distance, conf, IdentityScore(e.distance, conf));
    LearnedExactly(c, st, s);
    RecordMovesScore(c, st.past, false);
  }

  /** The session that presents the baseline itself, with full priors and no risk. */
  function Perfect(subject: string, iv: IdentityVector): Session {
    Session(subject, iv, [], {})
  }

  lemma PerfectSession(c: Config, st: Standing, subject: string)
    requires c.Valid() && StandingInv(c, st) && st.baseline.Some?
    ensures Judge(c, st, Perfect(subject, st.baseline.value)).decision == DENY <==> Locked(c, st)
  {
    var s := Perfect(subject, st.baseline.value);
    var e, conf := EvidenceOf(c, st, s), Conf(c);
    EvidenceRange(c, st, s);
    ScoreFormula(conf, e);
    DefaultRulesAreHarmless({});
    DistanceRange(s.iv.vector, s.iv.vector);
    assert e.distance == Some(0.0) && e.context == 100.0 && e.risk == 0.0;
    IdentityScoreRange(e.distance, conf, IdentityScore(e.distance, conf));
  }

  lemma {:induction false} LockedForever(c: Config, t: Tables, run: seq<Session>, subject: string)
    requires c.Valid() && TrustInv(c, t) && WellFormedRun(c, run) && Locked(c, StandingOf(t, subject))
    ensures Locked(c, StandingOf(After(c, t, run), subject))
  {
    if run != [] {
      var front, last := run[..|run| - 1], run[|run| - 1];
      LockedForever(c, t, front, subject);
      AfterKeepsInv(c, t, front);
      var before := After(c, t, front);
      LearnIsLocal(c, before, last, subject);
      assert StandingInv(c, StandingOf(before, subject));
      if last.subject == subject {
        LockedIsAbsorbing(c, StandingOf(before, subject), last);
      }
    }
  }

  /** A well-formed vector exists in every deployment. */
  lemma SomeVector(c: Config) returns (iv: IdentityVector)
    requires c.Valid()
    ensures WellFormed(c, iv)
  {
    var v: Vector := [1.0] + seq(c.dim - 1, _ => 0.0);
    SquareNonNegative(v[1..]);
    UnitVectorFits(v);
    iv := IdentityVector("", v, DigestOf(c, v).value);
  }

  /** Every later session of the subject, after any sessions of anybody, is denied. */
  ghost predicate DeniedForever(c: Config, t: Tables, subject: string) {
    forall run: seq<Session>, s: Session | WellFormedRun(c, run) && WellFormed(c, s.iv) && s.subject == subject ::
      JudgeIn(c, After(c, t, run), s).decision == DENY
  }

  /** The lockout is exact: a subject is denied for ever if and only if it is locked. */
  lemma LockoutIsExact(c: Config, t: Tables, subject: string)
    requires c.Valid() && TrustInv(c, t)
    ensures Locked(c, StandingOf(t, subject)) <==> DeniedForever(c, t, subject)
  {
    if Locked(c, StandingOf(t, subject)) {
      forall run: seq<Session>, s: Session | WellFormedRun(c, run) && WellFormed(c, s.iv) && s.subject == subject
        ensures JudgeIn(c, After(c, t, run), s).decision == DENY
      {
        LockedForever(c, t, run, subject);
        AfterKeepsInv(c, t, run);
        LockedIsAbsorbing(c, StandingOf(After(c, t, run), subject), s);
      }
    } else {
      NotDeniedForever(c, t, subject);
    }
  }

  lemma NotDeniedForever(c: Config, t: Tables, subject: string)
    requires c.Valid() && TrustInv(c, t) && !Locked(c, StandingOf(t, subject))
    ensures !DeniedForever(c, t, subject)
  {
    var st := StandingOf(t, subject);
    assert StandingInv(c, st);
    if st.baseline.Some? {
      PerfectSession(c, st, subject);
      assert After(c, t, []) == t;
      assert JudgeIn(c, After(c, t, []), Perfect(subject, st.baseline.value)).decision != DENY;
    } else {
      var iv := SomeVector(c);
      var s := Perfect(subject, iv);
      LearnIsLocal(c, t, s, subject);
      LearnedExactly(c, st, s);
      PerfectSession(c, Learned(c, st, s), subject);
      AfterOne(c, t, s);
      assert JudgeIn(c, After(c, t, [s]), s).decision != DENY;
    }
  }

  /** A window of failures only scores 0. */
  lemma FailuresLock(c: Config, st: Standing)
    requires c.Valid() && c.k > 0 && st.past == [false]
    ensures Locked(c, st)
  {
    assert Window(st.past, c.k) == [false];
    UniformScore([false], LAMBDA_DEFAULT, false);
    ConfidenceRange(N_EFF, c.fade);
  }

  lemma AfterOne(c: Config, t: Tables, s: Session)
    ensures After(c, t, [s]) == Learn(c, t, s)
  {
    assert [s][..0] == [];
  }

  /** A subject whose first recorded session is denied is denied for ever. */
  lemma FirstRecordedDenialIsFinal(c: Config, t: Tables, s: Session)
    requires c.Valid() && TrustInv(c, t) && WellFormed(c, s.iv) && c.k > 0
    requires s.subject in t.subjects && LogOf(t.history, s.subject) == []
    requires JudgeIn(c, t, s).decision == DENY
    ensures DeniedForever(c, Learn(c, t, s), s.subject)
  {
    var st := StandingOf(t, s.subject);
    assert StandingInv(c, st);
    LearnedExactly(c, st, s);
    FailuresLock(c, Learned(c, st, s));
    LearnIsLocal(c, t, s, s.subject);
    AfterOne(c, t, s);
    AfterKeepsInv(c, t, [s]);
    LockoutIsExact(c, Learn(c, t, s), s.subject);
  }

  // ---- staying accepted --------------------------------------------------

  /** Against the same baseline, `s'` is at least as good as `s`. */
  predicate NotWorse(baseline: IdentityVector, s: Session, s': Session) {
    && Distance(s'.iv.vector, baseline.vector) <= Distance(s.iv.vector, baseline.vector)
    && ContextScore(s'.priors) >= ContextScore(s.priors)
    && RiskTotal(s'.risk, DEFAULT_RULES) <= RiskTotal(s.risk, DEFAULT_RULES)
  }

  lemma NotWorseScore(c: Config, st: Standing, s: Session, st': Standing, s': Session)
    requires c.Valid() && st.baseline.Some? && st'.baseline == st.baseline
    requires HistoryScore(c, st'.past) >= HistoryScore(c, st.past) && NotWorse(st.baseline.value, s, s')
    ensures Judge(c, st', s').score >= Judge(c, st, s).score
    ensures Judge(c, st, s).decision != DENY ==> Judge(c, st', s').decision != DENY
  {
    ConfidenceRange(N_EFF, c.fade);
    ScoreOrder(DEFAULT_WEIGHTS, DEFAULT_POLICY, Conf(c), EvidenceOf(c, st, s), EvidenceOf(c, st', s'));
  }

  lemma {:induction false} HistoryHolds(c: Config, t: Tables, s: Session, later: seq<Session>)
    requires c.Valid() && TrustInv(c, t) && WellFormed(c, s.iv) && WellFormedRun(c, later)
    requires JudgeIn(c, t, s).decision != DENY && s.subject in t.subjects
    requires forall i | 0 <= i < |later| && later[i].subject == s.subject ::
      NotWorse(t.subjects[s.subject], s, later[i])
    ensures var st, st' := StandingOf(t, s.subject), StandingOf(After(c, t, later), s.subject);
      st'.baseline == st.baseline && HistoryScore(c, st'.past) >= HistoryScore(c, st.past)
  {
    if later != [] {
      var front, last := later[..|later| - 1], later[|later| - 1];
      HistoryHolds(c, t, s, front);
      AfterKeepsInv(c, t, front);
      var before := After(c, t, front);
      var st, st' := StandingOf(t, s.subject), StandingOf(before, s.subject);
      LearnIsLocal(c, before, last, s.subject);
      assert StandingInv(c, st');
      if last.subject == s.subject {
        NotWorseScore(c, st, s, st', last);
        LearnedExactly(c, st', last);
        Plateau(c, st', last);
        RecordMovesScore(c, st'.past, true);
      }
    }
  }

  /**
    After an accepted session, however many sessions of anybody follow, as long
    as the subject's own are at least as good as it, the next such session is
    accepted too and scores no less.
  */
  lemma AcceptedStaysAccepted(c: Config, t: Tables, s: Session, later: seq<Session>, s': Session)
    requires c.Valid() && TrustInv(c, t) && WellFormed(c, s.iv) && WellFormedRun(c, later)
    requires JudgeIn(c, t, s).decision != DENY && s.subject in t.subjects
    requires forall i | 0 <= i < |later| && later[i].subject == s.subject ::
      NotWorse(t.subjects[s.subject], s, later[i])
    requires s'.subject == s.subject && NotWorse(t.subjects[s.subject], s, s')
    ensures JudgeIn(c, After(c, t, later), s').decision != DENY
    ensures JudgeIn(c, After(c, t, later), s').score >= JudgeIn(c, t, s).score
  {
    HistoryHolds(c, t, s, later);
    NotWorseScore(c, StandingOf(t, s.subject), s, StandingOf(After(c, t, later), s.subject), s');
  }

  // ---- steady use --------------------------------------------------------

  function Repeated<T>(x: T, n: nat): (r: seq<T>)
    ensures |r| == n && forall i | 0 <= i < n :: r[i] == x
  {
    if n == 0 then [] else Repeated(x, n - 1) + [x]
  }

  /** The composite of a session that presents the baseline itself, without its history term. */
  function SteadyBase(c: Config, s: Session): real {
    35.0 * Conf(c) + 0.15 * ContextScore(s.priors) - 0.20 * RiskTotal(s.risk, DEFAULT_RULES)
  }

  /** Whether steady use gets past its second session, the first to be judged against a baseline. */
  predicate Passes(c: Config, s: Session) {
    SteadyBase(c, s) + 15.0 >= 50.0
  }

  lemma UniformHistory(c: Config, past: seq<bool>, accepted: bool)
    requires forall i | 0 <= i < |past| :: past[i] == accepted
    ensures HistoryScore(c, past) == if past == [] || c.k == 0 then 50.0 else if accepted then 100.0 else 0.0
  {
    var w := Window(past, c.k);
    if w != [] {
      UniformScore(w, LAMBDA_DEFAULT, accepted);
    }
  }

  lemma JudgeSteady(c: Config, st: Standing, s: Session)
    requires c.Valid() && WellFormed(c, s.iv) && StandingInv(c, st)
    requires st.baseline.Some? && st.baseline.value.vector == s.iv.vector
    ensures Judge(c, st, s).score == Clamp(SteadyBase(c, s) + 0.30 * HistoryScore(c, st.past), 0.0, 100.0)
    ensures Judge(c, st, s).decision != ALLOW
  {
    var e, conf := EvidenceOf(c, st, s), Conf(c);
    EvidenceRange(c, st, s);
    DistanceRange(s.iv.vector, s.iv.vector);
    ScoreFormula(conf, e);
    IdentityScoreRange(e.distance, conf, IdentityScore(e.distance, conf));
    Plateau(c, st, s);
  }

  /**
    The same use again: the same subject, vector and signals. The vectors' ids
    differ, since every compilation draws a new one.
  */
  predicate SameUse(s: Session, s': Session) {
    && s'.subject == s.subject && s'.iv.vector == s.iv.vector
    && ContextScore(s'.priors) == ContextScore(s.priors)
    && RiskTotal(s'.risk, DEFAULT_RULES) == RiskTotal(s.risk, DEFAULT_RULES)
  }

  ghost predicate SameUses(c: Config, s: Session, own: seq<Session>) {
    forall i | 0 <= i < |own| :: SameUse(s, own[i]) && WellFormed(c, own[i].iv)
  }

  /** What `n` sessions of one use leave behind: their vector, and the same outcome every time. */
  ghost predicate Steady(c: Config, st: Standing, s: Session, n: nat) {
    && StandingInv(c, st)
    && if n == 0 then st == Standing(None, [])
       else
         st.baseline.Some? && st.baseline.value.vector == s.iv.vector && st.past == Repeated(Passes(c, s), n - 1)
  }

  function SteadyScore(c: Config, s: Session, n: nat): real {
    Clamp(SteadyBase(c, s) + (if n == 1 || c.k == 0 then 15.0 else if Passes(c, s) then 30.0 else 0.0), 0.0, 100.0)
  }

  /** Judging a use that was seen `n` times before. */
  lemma SteadyVerdict(c: Config, st: Standing, s: Session, n: nat)
    requires c.Valid() && WellFormed(c, s.iv) && n > 0 && Steady(c, st, s, n)
    ensures var v := Judge(c, st, s);
      && v.decision == (if Passes(c, s) then STEP_UP else DENY)
      && v.score == SteadyScore(c, s, n)
  {
    JudgeSteady(c, st, s);
    UniformHistory(c, st.past, Passes(c, s));
  }

  /** A subject's first recorded session, if it presents the baseline's vector. */
  lemma SecondSession(c: Config, st: Standing, s: Session)
    requires c.Valid() && WellFormed(c, s.iv) && StandingInv(c, st)
    requires st.baseline.Some? && st.baseline.value.vector == s.iv.vector && st.past == []
    ensures Judge(c, st, s).decision == if Passes(c, s) then STEP_UP else DENY
  {
    JudgeSteady(c, st, s);
    UniformHistory(c, st.past, true);
  }

  lemma SteadyStep(c: Config, st: Standing, s: Session, n: nat)
    requires c.Valid() && WellFormed(c, s.iv) && Steady(c, st, s, n)
    ensures Steady(c, Learned(c, st, s), s, n + 1)
  {
    LearnedKeepsInv(c, st, s);
    LearnedExactly(c, st, s);
    if n > 0 {
      SteadyVerdict(c, st, s, n);
    }
  }

  /** The same use may stand in for any other of its kind. */
  lemma SteadyAlike(c: Config, st: Standing, s: Session, s': Session, n: nat)
    requires SameUse(s, s')
    ensures Steady(c, st, s, n) <==> Steady(c, st, s', n)
  {
  }

  lemma SteadyAppend(c: Config, own: seq<Session>, s: Session, last: Session, n: nat)
    requires c.Valid() && WellFormed(c, last.iv) && SameUse(s, last)
    requires Steady(c, LearnedFrom(c, Standing(None, []), own), s, n)
    ensures Steady(c, LearnedFrom(c, Standing(None, []), own + [last]), s, n + 1)
  {
    var st := LearnedFrom(c, Standing(None, []), own);
    SteadyAlike(c, st, s, last, n);
    SteadyStep(c, st, last, n);
    LearnedFromAppend(c, Standing(None, []), own, last);
    SteadyAlike(c, Learned(c, st, last), s, last, n + 1);
  }

  lemma {:induction false} SteadyStanding(c: Config, s: Session, own: seq<Session>)
    requires c.Valid() && SameUses(c, s, own)
    ensures Steady(c, LearnedFrom(c, Standing(None, []), own), s, |own|)
  {
    if own != [] {
      var front, last := own[..|own| - 1], own[|own| - 1];
      SteadyStanding(c, s, front);
      SteadyAppend(c, front, s, last, |front|);
      assert own == front + [last];
    }
  }

  /**
    Steady use of a new subject, whatever sessions of others lie in between: the
    first session is denied; from the second on every session is stepped up or
    every session is denied, decided by the session's own signals; and from the
    third on the score stands still.
  */
  lemma SteadyProgression(c: Config, t: Tables, run: seq<Session>, s: Session)
    requires c.Valid() && WellFormed(c, s.iv)
    requires StandingOf(t, s.subject) == Standing(None, []) && SameUses(c, s, Of(run, s.subject))
    ensures var v, n := JudgeIn(c, After(c, t, run), s), |Of(run, s.subject)|;
      && v.decision == (if n > 0 && Passes(c, s) then STEP_UP else DENY)
      && (n > 0 ==> v.score == SteadyScore(c, s, n))
  {
    var st, own := StandingOf(After(c, t, run), s.subject), Of(run, s.subject);
    Noninterference(c, t, run, s.subject);
    SteadyStanding(c, s, own);
    if own == [] {
      Plateau(c, st, s);
    } else {
      SteadyVerdict(c, st, s, |own|);
    }
  }

  // ---- both ends of steady use are reached -------------------------------

  /** After two sessions of one use or more, the subject is locked exactly when the use does not pass. */
  lemma SteadyLocks(c: Config, st: Standing, s: Session, n: nat)
    requires c.Valid() && c.k > 0 && n >= 2 && Steady(c, st, s, n)
    ensures Locked(c, st) <==> !Passes(c, s)
  {
    UniformHistory(c, st.past, Passes(c, s));
    ConfidenceRange(N_EFF, c.fade);
    ContextProductBounds(s.priors);
    DefaultRulesAreHarmless(s.risk);
  }

  /**
    Steady use of a new subject, twice or more and whatever sessions of others lie
    in between, ends in the lockout exactly when the use does not pass.
  */
  lemma SteadyLockout(c: Config, run: seq<Session>, s: Session, t: Tables)
    requires c.Valid() && c.k > 0 && WellFormedRun(c, run) && t == After(c, EMPTY, run)
    requires |Of(run, s.subject)| >= 2 && SameUses(c, s, Of(run, s.subject))
    ensures Locked(c, StandingOf(t, s.subject)) <==> !Passes(c, s)
    ensures DeniedForever(c, t, s.subject) <==> !Passes(c, s)
  {
    var own := Of(run, s.subject);
    Noninterference(c, EMPTY, run, s.subject);
    SteadyStanding(c, s, own);
    SteadyLocks(c, StandingOf(t, s.subject), s, |own|);
    AfterKeepsInv(c, EMPTY, run);
    LockoutIsExact(c, t, s.subject);
  }

  lemma WorthlessPrior(c: Config, s: Session)
    requires c.Valid() && s.priors == [0.0] && s.risk == {}
    ensures !Passes(c, s)
  {
    ContextStep([0.0], ContextProduct([0.0]), ContextProduct([]), 0.0);
    DefaultRulesAreHarmless({});
    ConfidenceRange(N_EFF, c.fade);
  }

  /** So the lockout is reached from an empty store, by any vector presented twice under a worthless prior. */
  lemma LockoutIsReached(c: Config, run: seq<Session>, s: Session, t: Tables)
    requires c.Valid() && c.k > 0 && WellFormedRun(c, run) && t == After(c, EMPTY, run)
    requires |Of(run, s.subject)| >= 2 && SameUses(c, s, Of(run, s.subject))
    requires s.priors == [0.0] && s.risk == {}
    ensures Locked(c, StandingOf(t, s.subject)) && DeniedForever(c, t, s.subject)
  {
    WorthlessPrior(c, s);
    SteadyLockout(c, run, s, t);
  }

  /** Use with full priors and no risk gets past its second session exactly when confidence is at least 4/7. */
  lemma CleanUsePasses(c: Config, s: Session)
    requires c.Valid() && s.priors == [] && s.risk == {}
    ensures Passes(c, s) <==> 7.0 * Conf(c) >= 4.0
  {
    DefaultRulesAreHarmless({});
  }
}

/** The gateway's handlers, which update a context and the shared stores in place. */
module Gateway {
  import opened Prelude
  import opened Handshake
  import opened Identity
  import opened Json
  import opened Registry
  import opened Scoring
  import opened Storage
  import opened TrustHistories
  import opened TrustLoop
  import Sessions
  import Vectors

  class HandshakeContext {
    var phase: Phase
    var seenMsgIds: set<Json>
    var serverEph: Option<string>
    var hello: Option<Json>
    var challenge: Option<Json>
    var entropy: Option<Json>
    var identityAck: Option<Json>
    var iv: Option<IdentityVector>
    var subject: Option<string>
    var session: Option<Sessions.SessionDna>

    constructor ()
      ensures View() == FRESH
    {
      phase, seenMsgIds := NEW, {};
      serverEph, hello, challenge, entropy, identityAck := None, None, None, None, None;
      iv, subject, session := None, None, None;
    }

    function View(): Ctx
      reads this
    {
      Ctx(phase, seenMsgIds, serverEph, hello, challenge, entropy, identityAck, iv, subject, session)
    }

    /** Accepts a message id once; `failure` says why it is refused. */
    method CheckId(msg: Members) returns (failure: Option<Failure>)
      modifies this`seenMsgIds
      ensures match CheckMsgId(old(seenMsgIds), msg)
              case Err(e) => failure == Some(e) && seenMsgIds == old(seenMsgIds)
              case Ok(seen) => failure == None && seenMsgIds == seen
    {
      var id := MsgId(msg);
      if id.Err? {
        return Some(id.error);
      }
      if id.value == Null {
        return Some(Protocol(ERR_MALFORMED));
      }
      var key := SetKey(id.value);
      if key.None? {
        return Some(Uncaught);
      }
      if key.value in seenMsgIds {
        return Some(Protocol(ERR_REPLAY));
      }
      seenMsgIds := seenMsgIds + {key.value};
      failure := None;
    }
  }

  class Gateway {
    const platform: Platform
    const subjects: PersistentSubjectRegistry
    const history: PersistentTrustHistory
    const sessions: Sessions.SessionStore

    constructor (platform: Platform, subjects: PersistentSubjectRegistry, history: PersistentTrustHistory,
                 sessions: Sessions.SessionStore)
      ensures this.platform == platform && this.subjects == subjects
      ensures this.history == history && this.sessions == sessions
    {
      this.platform, this.subjects, this.history, this.sessions := platform, subjects, history, sessions;
    }

    /** Registry and history share the store, and both caches are coherent with it. */
    ghost predicate Valid()
      reads subjects, history, subjects.store, history.store
    {
      && subjects.store == history.store
      && subjects.config == platform.config && history.k == platform.config.k
      && subjects.Coherent() && history.Valid()
    }

    function View(): Server
      reads sessions, subjects.store
    {
      Server(subjects.store.View(), sessions.View())
    }

    method HandleHello(ctx: HandshakeContext, msg: Members, r: HelloRandoms) returns (reply: Result<Json, Failure>)
      modifies ctx
      ensures (ctx.View(), reply) == HelloStep(old(ctx.View()), msg, r)
    {
      if ctx.phase != NEW {
        return Err(Protocol(ERR_STATE_INVALID));
      }
      var failure := ctx.CheckId(msg);
      if failure.Some? {
        return Err(failure.value);
      }
      var body := Get(msg, "body");
      if body.None? || !body.value.Obj? {
        return Err(Uncaught);
      }
      var offered := OffersSuite(body.value.members);
      if offered.None? {
        return Err(Uncaught);
      }
      if !offered.value {
        return Err(Protocol(ERR_SUITE_UNSUPPORTED));
      }
      ctx.serverEph := Some(r.ephPublic);
      ctx.hello := Some(Obj(msg));
      var challenge := ChallengeMessage(r);
      ctx.challenge := Some(challenge);
      ctx.phase := CHALLENGED;
      reply := Ok(challenge);
    }

    method HandleEntropy(ctx: HandshakeContext, msg: Members, e: EntropyInput) returns (reply: Result<Json, Failure>)
      requires e.Fits(platform.config)
      modifies ctx
      ensures (ctx.View(), reply) == EntropyStep(platform.config, old(ctx.View()), msg, e)
    {
      if ctx.phase != CHALLENGED {
        return Err(Protocol(ERR_STATE_INVALID));
      }
      var failure := ctx.CheckId(msg);
      if failure.Some? {
        return Err(failure.value);
      }
      var body := Get(msg, "body");
      if body.None? || !body.value.Obj? {
        return Err(Uncaught);
      }
      var found := e.lookup(GetOrNull(body.value.members, "consent_receipt_id"));
      if found.Raised? {
        return Err(Uncaught);
      }
      if found.Missing? || !found.consent.IsValid(e.now) {
        return Err(Protocol(ERR_CONSENT_MISSING));
      }
      var iv := Compiled(platform.config, found.consent, e);
      if iv.None? {
        return Err(Uncaught);
      }
      ctx.entropy := Some(Obj(msg));
      var ack := IdentityAckMessage(iv.value, e.msgId);
      ctx.identityAck := Some(ack);
      ctx.iv := iv;
      ctx.subject := Some(found.consent.subject);
      ctx.phase := AWAITING_PROOF;
      reply := Ok(ack);
    }

    /** `compute_trust_score` over the persistent history. */
    method ComputeTrustScore(distance: Option<real>, subject: string, priors: seq<real>, risk: RiskContext)
      returns (verdict: Verdict)
      requires Valid()
      modifies history
      ensures Valid()
      ensures Warm(history.bySubject, history.k, history.store.history, subject)
      ensures verdict == Assess(platform.config,
        Evidence(distance, HistoryScore(platform.config, LogOf(history.store.history, subject)),
                 ContextScore(priors), RiskTotal(risk, DEFAULT_RULES)), risk)
    {
      var conf := Confidence(N_EFF, platform.config.fade);
      var identityScore := IdentityScore(distance, conf);
      var historyScore := history.ScoreOf(subject);
      var contextScore := ComputeContextScore(priors);
      var total, flags := EvaluateRisk(risk, None);
      var score := Clamp(Composite(DEFAULT_WEIGHTS, identityScore, historyScore, contextScore, total), 0.0, 100.0);
      verdict := Verdict(score, DEFAULT_POLICY.Decide(score), flags);
    }

    /** Everything between the verified signature and the session. */
    method EvaluateTrust(subject: string, iv: IdentityVector, priors: seq<real>, risk: RiskContext)
      returns (verdict: Verdict, drifted: bool)
      requires Valid()
      modifies subjects, history, subjects.store
      ensures Valid()
      ensures (subjects.store.View(), verdict, drifted) ==
        Evaluate(platform.config, old(subjects.store.View()), subject, iv, priors, risk)
    {
      var distance := subjects.RelationshipDistance(subject, iv);
      var known := subjects.HasBaseline(subject);
      var first := !known;
      if first {
        subjects.Enroll(subject, iv);
      }
      verdict := ComputeTrustScore(distance, subject, priors, risk);
      drifted := true;
      if verdict.decision == DENY {
        if !first {
          history.Record(subject, false);
        }
        return;
      }
      if !first {
        history.Record(subject, true);
      }
      if verdict.decision == ALLOW {
        drifted := subjects.UpdateBaselineEwma(subject, iv, Vectors.ALPHA_DEFAULT);
      } else {
        // A second enrolment would follow if this failed; by now it cannot.
        known := subjects.HasBaseline(subject);
        assert known;
      }
    }

    /** Key agreement and the new session. */
    method Issue(ctx: HandshakeContext, publicKey: Json, hash: string, verdict: Verdict, i: ProofInput)
      returns (reply: Result<Verdict, Failure>)
      requires HasTranscript(ctx.View()) && ctx.serverEph.Some?
      modifies ctx, sessions
      ensures (ctx.View(), View(), reply) ==
        Activate(platform, old(ctx.View()), old(View()), publicKey, hash, verdict, i)
    {
      var shared := platform.agree(ctx.serverEph.value, PeerKey(ctx.hello.value, publicKey));
      if shared.None? {
        return Err(Uncaught);
      }
      var s := Sessions.InitialSdna(i.sessionId, shared.value, hash, i.now,
                                    Sessions.ROTATION_INTERVAL_S_DEFAULT);
      sessions.Put(s);
      ctx.phase := ACTIVE;
      ctx.session := Some(s);
      reply := Ok(verdict);
    }

    method HandleProof(ctx: HandshakeContext, msg: Members, i: ProofInput) returns (reply: Result<Verdict, Failure>)
      requires Valid()
      requires ctx.phase == AWAITING_PROOF ==> ReadyForProof(ctx.View())
      modifies ctx, subjects, history, subjects.store, sessions
      ensures Valid()
      ensures (ctx.View(), View(), reply) == ProofStep(platform, old(ctx.View()), old(View()), msg, i)
    {
      if ctx.phase != AWAITING_PROOF {
        return Err(Protocol(ERR_STATE_INVALID));
      }
      var failure := ctx.CheckId(msg);
      if failure.Some? {
        return Err(failure.value);
      }
      var proof := ProofOf(msg);
      var hash := TranscriptHash(platform, TranscriptOf(ctx.View()));
      if proof.None? || hash.None? {
        return Err(Uncaught);
      }
      if !platform.verify(proof.value.publicKey, hash.value, proof.value.signature) {
        ctx.phase := REJECTED;
        return Err(Protocol(ERR_SIGNATURE_INVALID));
      }
      ctx.phase := VERIFYING;
      var verdict, drifted := EvaluateTrust(ctx.subject.value, ctx.iv.value, i.priors, i.risk);
      if verdict.decision == DENY {
        ctx.phase := DENIED;
        return Ok(verdict);
      }
      ctx.phase := TRUST_EVALUATED;
      if !drifted {
        return Err(Uncaught);
      }
      reply := Issue(ctx, proof.value.publicKey, hash.value, verdict, i);
    }
  }
}

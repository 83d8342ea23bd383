/** Handshake attempts: contexts together with the messages that were accepted on the way. */
module Attempts {
  import opened Prelude
  import opened CanonicalJson
  import opened Framing
  import opened Handshake
  import opened Identity
  import opened Json
  import opened Scoring
  import opened Transcript
  import opened TrustLoop
  import opened VectorDigest
  import Sessions

  /** What a handler accepted, with the message id as the handshake remembers it. */
  datatype Acceptance =
    | HelloAccepted(key: Json)
    | EntropyAccepted(key: Json, consent: Consent, at: int)
    | ProofAccepted(key: Json, proof: Proof, hash: string, at: int)

  /** A context and the messages whose handlers returned normally, in order. */
  datatype Attempt = Attempt(ctx: Ctx, accepted: seq<Acceptance>)

  function KeyOf(msg: Members): Json {
    match MsgId(msg)
    case Ok(id) => (match SetKey(id) case Some(key) => key case None => Null)
    case Err(_) => Null
  }

  function ConsentFor(msg: Members, e: EntropyInput): Lookup {
    match Get(msg, "body")
    case Some(Obj(body)) => e.lookup(GetOrNull(body, "consent_receipt_id"))
    case _ => Missing
  }

  /** The phases that a handshake reaches only through trust evaluation. */
  predicate Evaluated(phase: Phase) {
    phase == DENIED || phase == TRUST_EVALUATED || phase == ACTIVE
  }

  /** How far a handshake still is from its end. */
  function Rank(phase: Phase): nat {
    match phase
    case NEW => 3
    case CHALLENGED => 2
    case AWAITING_PROOF => 1
    case _ => 0
  }

  predicate SameButProgress(ctx: Ctx, ctx': Ctx) {
    ctx' == ctx.(seen := ctx'.seen, phase := ctx'.phase, session := ctx'.session) && ctx.seen <= ctx'.seen
  }

  lemma CheckAddsKey(seen: set<Json>, msg: Members)
    ensures CheckMsgId(seen, msg).Ok? ==>
      KeyOf(msg) !in seen && CheckMsgId(seen, msg).value == seen + {KeyOf(msg)}
  {
  }

  /** The HELLO offers the one suite there is. */
  predicate Offered(hello: Json) {
    match hello
    case Obj(msg) => (match Get(msg, "body") case Some(Obj(body)) => OffersSuite(body) == Some(true) case _ => false)
    case _ => false
  }

  /** What an accepted HELLO or ENTROPY takes and leaves, and what a refused one does not touch. */
  lemma HelloEffect(ctx: Ctx, msg: Members, r: HelloRandoms)
    ensures var (ctx', reply) := HelloStep(ctx, msg, r);
      if reply.Ok? then
        && ctx.phase == NEW && ctx'.phase == CHALLENGED && KeyOf(msg) !in ctx.seen
        && ctx' == ctx.(phase := CHALLENGED, seen := ctx.seen + {KeyOf(msg)}, eph := Some(r.ephPublic),
                        hello := Some(Obj(msg)), challenge := Some(reply.value))
        && Offered(Obj(msg)) && BodyField(reply.value, "server_eph_public") == Some(Str(r.ephPublic))
        && DistinctKeys(reply.value)
      else ctx'.phase == ctx.phase && SameButProgress(ctx, ctx') && ctx'.session == ctx.session
  {
    CheckAddsKey(ctx.seen, msg);
    ChallengeCarries(r);
    ChallengeDistinct(r);
  }

  lemma EntropyEffect(c: Config, ctx: Ctx, msg: Members, e: EntropyInput)
    requires c.Valid() && e.Fits(c)
    ensures var (ctx', reply) := EntropyStep(c, ctx, msg, e);
      if reply.Ok? then
        && ctx.phase == CHALLENGED && KeyOf(msg) !in ctx.seen
        && ConsentFor(msg, e).Found? && ConsentFor(msg, e).consent.IsValid(e.now)
        && ctx'.iv.Some? && WellFormed(c, ctx'.iv.value) && ctx'.iv.value.id == e.vectorId && e.layers.Some?
        && PointsAlong(ctx'.iv.value.vector, e.layers.value.device, e.layers.value.behavior, e.layers.value.context)
        && ctx' == ctx.(phase := AWAITING_PROOF, seen := ctx.seen + {KeyOf(msg)}, entropy := Some(Obj(msg)),
                        identityAck := Some(reply.value), iv := ctx'.iv,
                        subject := Some(ConsentFor(msg, e).consent.subject))
        && BodyField(reply.value, "iv_digest") == Some(Str(ctx'.iv.value.digest))
        && DistinctKeys(reply.value)
      else ctx'.phase == ctx.phase && SameButProgress(ctx, ctx') && ctx'.session == ctx.session
  {
    CheckAddsKey(ctx.seen, msg);
    if e.layers.Some? {
      var l := e.layers.value;
      CompileIsWellFormed(c, e.vectorId, l.device, l.behavior, l.context);
      CompileWeighs(c, e.vectorId, l.device, l.behavior, l.context);
    }
    var (ctx', _) := EntropyStep(c, ctx, msg, e);
    if ctx'.iv.Some? {
      AckCarries(ctx'.iv.value, e.msgId);
      AckDistinct(ctx'.iv.value, e.msgId);
    }
  }

  function BodyOf(msg: Members): Option<Members> {
    match Get(msg, "body")
    case Some(Obj(body)) => Some(body)
    case _ => None
  }

  /** When a HELLO is accepted, and which error each refusal has. */
  lemma HelloOutcome(ctx: Ctx, msg: Members, r: HelloRandoms)
    ensures var (ctx', reply) := HelloStep(ctx, msg, r);
      var id := CheckMsgId(ctx.seen, msg);
      && (reply.Ok? <==> ctx.phase == NEW && id.Ok? && Offered(Obj(msg)))
      && (reply == Err(Protocol(ERR_STATE_INVALID)) <==> ctx.phase != NEW)
      && (ctx.phase == NEW && id.Err? ==> reply == Err(id.error))
      && (ctx.phase == NEW && id.Ok? ==>
           && (reply == Err(Protocol(ERR_SUITE_UNSUPPORTED)) <==>
                BodyOf(msg).Some? && OffersSuite(BodyOf(msg).value) == Some(false))
           && (reply == Err(Uncaught) <==> BodyOf(msg).None? || OffersSuite(BodyOf(msg).value).None?))
      && (reply.Err? ==> ctx' == if ctx.phase == NEW && id.Ok? then ctx.(seen := ctx.seen + {KeyOf(msg)}) else ctx)
      && (reply.Ok? ==> ctx'.phase == CHALLENGED)
  {
    CheckAddsKey(ctx.seen, msg);
  }

  /** Three layers without a single byte that is not zero. */
  predicate AllZero(l: Layers)
    requires |l.device| == |l.behavior| == |l.context|
  {
    forall i | 0 <= i < |l.device| :: l.device[i] == l.behavior[i] == l.context[i] == 0
  }

  /** The consent covers the device scope, from its issue to its expiry, both included. */
  predicate InForce(consent: Consent, now: int) {
    "device_dna" in consent.scopes && consent.issuedAt <= now <= consent.expiresAt
  }

  /** What escapes as an exception once the gateway's own checks have passed. */
  predicate Escapes(consent: Consent, e: EntropyInput)
    requires e.layers.Some? ==>
      |e.layers.value.device| == |e.layers.value.behavior| == |e.layers.value.context|
  {
    !InForce(consent, e.later) || e.layers.None? || AllZero(e.layers.value)
  }

  /**
    When an ENTROPY is accepted, and which error each refusal has. A receipt id that
    cannot be looked up, a consent that expires between the two checks, and a vector
    of zero norm escape as exceptions and are not answered with a protocol error.
  */
  lemma EntropyOutcome(c: Config, ctx: Ctx, msg: Members, e: EntropyInput)
    requires c.Valid() && e.Fits(c)
    ensures var (ctx', reply) := EntropyStep(c, ctx, msg, e);
      var id, found := CheckMsgId(ctx.seen, msg), ConsentFor(msg, e);
      var consented := found.Found? && InForce(found.consent, e.now);
      && (reply == Err(Protocol(ERR_STATE_INVALID)) <==> ctx.phase != CHALLENGED)
      && (ctx.phase == CHALLENGED && id.Err? ==> reply == Err(id.error))
      && (ctx.phase == CHALLENGED && id.Ok? ==>
           && (reply == Err(Protocol(ERR_CONSENT_MISSING)) <==> BodyOf(msg).Some? && !found.Raised? && !consented)
           && (reply == Err(Uncaught) <==>
                BodyOf(msg).None? || found.Raised? || (consented && Escapes(found.consent, e)))
           && (reply.Ok? <==> BodyOf(msg).Some? && consented && !Escapes(found.consent, e)))
      && (reply.Err? ==>
           ctx' == if ctx.phase == CHALLENGED && id.Ok? then ctx.(seen := ctx.seen + {KeyOf(msg)}) else ctx)
      && (reply.Ok? ==> ctx'.phase == AWAITING_PROOF)
  {
    CheckAddsKey(ctx.seen, msg);
    if e.layers.Some? {
      var l := e.layers.value;
      CompileIsWellFormed(c, e.vectorId, l.device, l.behavior, l.context);
    }
  }

  /** A challenged context, and an ENTROPY whose lookup finds a consent for the clock readings 0 to `until`. */
  function Probe(c: Config, until: int, later: int, level: byte): (Ctx, Members, EntropyInput) {
    (FRESH.(phase := CHALLENGED),
     [Member("msg_id", Str("m")), Member("body", Obj([]))],
     EntropyInput(_ => Found(Consent("c", "s", [DEVICE_SCOPE], 0, until)), 0, later,
                  Some(Layers(Level(c.dim, level), Level(c.dim, level), Level(c.dim, level))), "v", "a"))
  }

  function Level(n: nat, level: byte): (bytes: Bytes)
    ensures |bytes| == n
  {
    seq(n, _ => level)
  }

  /** The probe passes every check before the compiler's. */
  lemma ProbePasses(c: Config, until: int, later: int, level: byte)
    requires until >= 0
    ensures var (ctx, msg, e) := Probe(c, until, later, level);
      && e.Fits(c) && CheckMsgId(ctx.seen, msg).Ok? && BodyOf(msg).Some?
      && ConsentFor(msg, e) == Found(Consent("c", "s", [DEVICE_SCOPE], 0, until))
      && ConsentFor(msg, e).consent.IsValid(e.now)
  {
    var (ctx, msg, e) := Probe(c, until, later, level);
    GetPasses([], msg[0], [msg[1]]);
    assert msg[0].key[0] == 'm' && msg[1].key[0] == 'b';
    GetPasses([msg[0]], msg[1], []);
    assert msg == [] + [msg[0]] + [msg[1]] == [msg[0]] + [msg[1]] + [];
    assert DEVICE_SCOPE in [DEVICE_SCOPE];
  }

  /** A vector of zero norm escapes as an exception: it is not answered with ERR_MALFORMED. */
  lemma ZeroNormEscapes(c: Config)
    requires c.Valid()
    ensures var (ctx, msg, e) := Probe(c, 10, 0, 0);
      e.Fits(c) && EntropyStep(c, ctx, msg, e).1 == Err(Uncaught)
  {
    var (ctx, msg, e) := Probe(c, 10, 0, 0);
    ProbePasses(c, 10, 0, 0);
    EntropyOutcome(c, ctx, msg, e);
  }

  /** So does a consent that expires between the gateway's check and the compiler's. */
  lemma ExpiringConsentEscapes(c: Config)
    requires c.Valid()
    ensures var (ctx, msg, e) := Probe(c, 10, 11, 1);
      e.Fits(c) && EntropyStep(c, ctx, msg, e).1 == Err(Uncaught)
  {
    var (ctx, msg, e) := Probe(c, 10, 11, 1);
    ProbePasses(c, 10, 11, 1);
    EntropyOutcome(c, ctx, msg, e);
  }

  /** On the server's own lookup: a receipt id that is a list or a dictionary, and not empty, escapes. */
  lemma UnhashableReceiptEscapes(c: Config, ctx: Ctx, msg: Members, e: EntropyInput, receipts: map<string, Consent>)
    requires c.Valid() && e.Fits(c) && forall id :: e.lookup(id) == ServerLookup(receipts, id)
    requires ctx.phase == CHALLENGED && CheckMsgId(ctx.seen, msg).Ok? && BodyOf(msg).Some?
    requires var id := GetOrNull(BodyOf(msg).value, "consent_receipt_id");
      (id.Arr? && id.items != []) || (id.Obj? && id.members != [])
    ensures EntropyStep(c, ctx, msg, e).1 == Err(Uncaught)
  {
    EntropyOutcome(c, ctx, msg, e);
  }

  /** The proof's signature verifies over the context's own transcript. */
  predicate Verified(p: Platform, ctx: Ctx, msg: Members) {
    && HasTranscript(ctx) && ProofOf(msg).Some? && TranscriptHash(p, TranscriptOf(ctx)).Some?
    && p.verify(ProofOf(msg).value.publicKey, TranscriptHash(p, TranscriptOf(ctx)).value, ProofOf(msg).value.signature)
  }

  predicate ProofStands(p: Platform, ctx: Ctx, msg: Members) {
    ctx.phase == AWAITING_PROOF && CheckMsgId(ctx.seen, msg).Ok? && Verified(p, ctx, msg)
  }

  /** What the server's ephemeral key agrees on with the client's; `None` is an unusable key. */
  function Agreed(p: Platform, ctx: Ctx, proof: Proof): Option<Bytes>
    requires ctx.eph.Some? && ctx.hello.Some?
  {
    p.agree(ctx.eph.value, PeerKey(ctx.hello.value, proof.publicKey))
  }

  function SessionOf(ctx: Ctx, i: ProofInput): Session
    requires ctx.subject.Some? && ctx.iv.Some?
  {
    Session(ctx.subject.value, ctx.iv.value, i.priors, i.risk)
  }

  /** A proof that does not stand changes nothing but its own context. */
  lemma ProofRefused(p: Platform, ctx: Ctx, server: Server, msg: Members, i: ProofInput)
    requires ctx.phase == AWAITING_PROOF ==> ReadyForProof(ctx)
    requires !ProofStands(p, ctx, msg)
    ensures var (ctx', server', reply) := ProofStep(p, ctx, server, msg, i);
      && server' == server && reply.Err? && SameButProgress(ctx, ctx') && ctx'.session == ctx.session
      && (ctx'.phase == ctx.phase || (ctx.phase == AWAITING_PROOF && ctx'.phase == REJECTED))
  {
    if ctx.phase == AWAITING_PROOF && CheckMsgId(ctx.seen, msg).Ok? {
      assert !Verified(p, ctx, msg);
      assert CheckMsgId(ctx.seen, msg).value >= ctx.seen;
    }
  }

  /** A proof that stands is judged and learned from; a session follows only an accepted one. */
  lemma ProofJudged(p: Platform, ctx: Ctx, server: Server, msg: Members, i: ProofInput)
    requires ReadyForProof(ctx) && ProofStands(p, ctx, msg)
    ensures var (ctx', server', reply) := ProofStep(p, ctx, server, msg, i);
      var s, hash := SessionOf(ctx, i), TranscriptHash(p, TranscriptOf(ctx)).value;
      && server'.tables == Learn(p.config, server.tables, s)
      && SameButProgress(ctx, ctx') && ctx'.seen == ctx.seen + {KeyOf(msg)} && KeyOf(msg) !in ctx.seen
      && Evaluated(ctx'.phase)
      && (ctx'.phase == DENIED <==> JudgeIn(p.config, server.tables, s).decision == DENY)
      && (reply.Ok? <==> ctx'.phase != TRUST_EVALUATED)
      && (reply.Ok? ==> reply.value == JudgeIn(p.config, server.tables, s))
      && (if ctx'.phase != ACTIVE then server'.sessions == server.sessions && ctx'.session == ctx.session
          else
            && ctx'.session.Some? && server'.sessions == server.sessions.Put(ctx'.session.value)
            && Agreed(p, ctx, ProofOf(msg).value).Some?
            && ctx'.session.value.id == i.sessionId
            && ctx'.session.value.sdna == Sessions.Initial(Agreed(p, ctx, ProofOf(msg).value).value, hash)
            && ctx'.session.value.generation == 0 && ctx'.session.value.interval == 300
            && ctx'.session.value.issuedAt == i.now && ctx'.session.value.expiresAt == i.now + 300)
  {
    CheckAddsKey(ctx.seen, msg);
    EvaluationLearns(p.config, server.tables, SessionOf(ctx, i));
  }

  /** A stepped-up proof activates its handshake exactly when key agreement succeeds. */
  lemma StepUpActivates(p: Platform, ctx: Ctx, server: Server, msg: Members, i: ProofInput)
    requires ReadyForProof(ctx) && ProofStands(p, ctx, msg)
    requires JudgeIn(p.config, server.tables, SessionOf(ctx, i)).decision == STEP_UP
    ensures ProofStep(p, ctx, server, msg, i).0.phase == ACTIVE
       <==> Agreed(p, ctx, ProofOf(msg).value).Some?
  {
    EvaluationLearns(p.config, server.tables, SessionOf(ctx, i));
  }

  /** A finished handshake answers every message with ERR_STATE_INVALID and never changes. */
  lemma FinishedIsFinal(p: Platform, ctx: Ctx, server: Server, msg: Members, r: HelloRandoms, e: EntropyInput,
                        i: ProofInput)
    requires Rank(ctx.phase) == 0 && e.Fits(p.config)
    ensures HelloStep(ctx, msg, r) == (ctx, Err(Protocol(ERR_STATE_INVALID)))
    ensures EntropyStep(p.config, ctx, msg, e) == (ctx, Err(Protocol(ERR_STATE_INVALID)))
    ensures ProofStep(p, ctx, server, msg, i) == (ctx, server, Err(Protocol(ERR_STATE_INVALID)))
  {
  }

  // ---- what a handshake has accepted -------------------------------------

  function OnHello(a: Attempt, msg: Members, r: HelloRandoms): Attempt {
    var (ctx, reply) := HelloStep(a.ctx, msg, r);
    Attempt(ctx, if reply.Ok? then a.accepted + [HelloAccepted(KeyOf(msg))] else a.accepted)
  }

  function OnEntropy(c: Config, a: Attempt, msg: Members, e: EntropyInput): Attempt
    requires e.Fits(c)
  {
    var (ctx, reply) := EntropyStep(c, a.ctx, msg, e);
    Attempt(ctx,
      if reply.Ok? && ConsentFor(msg, e).Found?
      then a.accepted + [EntropyAccepted(KeyOf(msg), ConsentFor(msg, e).consent, e.now)]
      else a.accepted)
  }

  function OnProof(p: Platform, a: Attempt, server: Server, msg: Members, i: ProofInput): Attempt
    requires a.ctx.phase == AWAITING_PROOF ==> ReadyForProof(a.ctx)
  {
    var (ctx, _, reply) := ProofStep(p, a.ctx, server, msg, i);
    Attempt(ctx,
      if reply.Ok? && Verified(p, a.ctx, msg)
      then
        var hash := TranscriptHash(p, TranscriptOf(a.ctx)).value;
        a.accepted + [ProofAccepted(KeyOf(msg), ProofOf(msg).value, hash, i.now)]
      else a.accepted)
  }

  /** Every accepted id is remembered, and no id was accepted twice. */
  predicate DistinctIds(accepted: seq<Acceptance>, seen: set<Json>) {
    && (forall i | 0 <= i < |accepted| :: accepted[i].key in seen)
    && (forall i, j | 0 <= i < j < |accepted| :: accepted[i].key != accepted[j].key)
  }

  /** The HELLO offered the suite, and the challenge carries the key that the server holds. */
  predicate Challenged(ctx: Ctx) {
    && ctx.hello.Some? && ctx.challenge.Some? && ctx.eph.Some? && Offered(ctx.hello.value)
    && BodyField(ctx.challenge.value, "server_eph_public") == Some(Str(ctx.eph.value))
    && DistinctKeys(ctx.challenge.value)
  }

  /** HELLO then ENTROPY were accepted, the latter under a consent that was valid, for its subject. */
  ghost predicate Compiling(c: Config, a: Attempt) {
    && ReadyForProof(a.ctx) && Challenged(a.ctx) && WellFormed(c, a.ctx.iv.value)
    && BodyField(a.ctx.identityAck.value, "iv_digest") == Some(Str(a.ctx.iv.value.digest))
    && DistinctKeys(a.ctx.identityAck.value)
    && |a.accepted| >= 2 && a.accepted[0].HelloAccepted? && a.accepted[1].EntropyAccepted?
    && a.accepted[1].consent.IsValid(a.accepted[1].at)
    && a.ctx.subject.value == a.accepted[1].consent.subject
  }

  /** Then PROOF was accepted, signed over this handshake's own transcript. */
  ghost predicate Proven(p: Platform, a: Attempt) {
    && Compiling(p.config, a) && |a.accepted| == 3 && a.accepted[2].ProofAccepted?
    && TranscriptHash(p, TranscriptOf(a.ctx)) == Some(a.accepted[2].hash)
    && p.verify(a.accepted[2].proof.publicKey, a.accepted[2].hash, a.accepted[2].proof.signature)
  }

  /** The session was derived from the key agreement and the transcript, for 300 seconds. */
  predicate Keyed(p: Platform, ctx: Ctx, accepted: Acceptance, s: Sessions.SessionDna) {
    && accepted.ProofAccepted? && ctx.eph.Some? && ctx.hello.Some? && Agreed(p, ctx, accepted.proof).Some?
    && s.sdna == Sessions.Initial(Agreed(p, ctx, accepted.proof).value, accepted.hash)
    && s.generation == 0 && s.interval == 300 && s.issuedAt == accepted.at && s.expiresAt == accepted.at + 300
  }

  ghost predicate AttemptInv(p: Platform, a: Attempt) {
    && DistinctIds(a.accepted, a.ctx.seen)
    && (a.ctx.phase == ACTIVE <==> a.ctx.session.Some?)
    && match a.ctx.phase
       case NEW => a.accepted == []
       case CHALLENGED =>
         |a.accepted| == 1 && a.accepted[0].HelloAccepted? && Challenged(a.ctx)
       case AWAITING_PROOF => |a.accepted| == 2 && Compiling(p.config, a)
       case REJECTED => |a.accepted| == 2 && Compiling(p.config, a)
       case TRUST_EVALUATED => |a.accepted| == 2 && Compiling(p.config, a)
       case DENIED => Proven(p, a)
       case ACTIVE =>
         Proven(p, a) && Keyed(p, a.ctx, a.accepted[2], a.ctx.session.value)
       case VERIFYING => false
  }

  lemma HelloKeepsInv(p: Platform, a: Attempt, msg: Members, r: HelloRandoms)
    requires AttemptInv(p, a)
    ensures AttemptInv(p, OnHello(a, msg, r))
    ensures OnHello(a, msg, r).ctx.phase == a.ctx.phase || Rank(OnHello(a, msg, r).ctx.phase) < Rank(a.ctx.phase)
    ensures Evaluated(OnHello(a, msg, r).ctx.phase) == Evaluated(a.ctx.phase)
    ensures Evaluated(a.ctx.phase) ==> SameButProgress(a.ctx, OnHello(a, msg, r).ctx)
    ensures OnHello(a, msg, r).ctx.session == a.ctx.session
  {
    HelloEffect(a.ctx, msg, r);
  }

  /** A refused message leaves the acceptances as they were. */
  lemma RefusedKeepsInv(p: Platform, a: Attempt, a': Attempt)
    requires AttemptInv(p, a) && SameButProgress(a.ctx, a'.ctx) && a'.ctx.session == a.ctx.session
    requires a'.accepted == a.accepted
    requires a'.ctx.phase == a.ctx.phase || (a.ctx.phase == AWAITING_PROOF && a'.ctx.phase == REJECTED)
    ensures AttemptInv(p, a')
  {
    if a.ctx.phase == ACTIVE || a.ctx.phase == DENIED {
      assert TranscriptOf(a'.ctx) == TranscriptOf(a.ctx);
    }
  }

  /** An accepted ENTROPY, from what is known of the context it left. */
  lemma AcceptedEntropyKeepsInv(p: Platform, a: Attempt, a': Attempt, entropy: Acceptance)
    requires AttemptInv(p, a) && a.ctx.phase == CHALLENGED && a'.ctx.phase == AWAITING_PROOF
    requires entropy.EntropyAccepted? && entropy.consent.IsValid(entropy.at)
    requires entropy.key !in a.ctx.seen && a'.accepted == a.accepted + [entropy]
    requires a'.ctx.iv.Some? && WellFormed(p.config, a'.ctx.iv.value) && a'.ctx.identityAck.Some?
    requires BodyField(a'.ctx.identityAck.value, "iv_digest") == Some(Str(a'.ctx.iv.value.digest))
    requires DistinctKeys(a'.ctx.identityAck.value)
    requires a'.ctx.entropy.Some? && a'.ctx.subject == Some(entropy.consent.subject)
    requires a'.ctx == a.ctx.(phase := AWAITING_PROOF, seen := a.ctx.seen + {entropy.key}, entropy := a'.ctx.entropy,
                              identityAck := a'.ctx.identityAck, iv := a'.ctx.iv, subject := a'.ctx.subject)
    ensures AttemptInv(p, a')
  {
  }

  lemma EntropyKeepsInv(p: Platform, a: Attempt, msg: Members, e: EntropyInput)
    requires p.config.Valid() && e.Fits(p.config) && AttemptInv(p, a)
    ensures var a' := OnEntropy(p.config, a, msg, e);
      && AttemptInv(p, a')
      && (a'.ctx.phase == a.ctx.phase || Rank(a'.ctx.phase) < Rank(a.ctx.phase))
      && Evaluated(a'.ctx.phase) == Evaluated(a.ctx.phase)
      && (Evaluated(a.ctx.phase) ==> SameButProgress(a.ctx, a'.ctx))
      && a'.ctx.session == a.ctx.session
  {
    var a' := OnEntropy(p.config, a, msg, e);
    EntropyEffect(p.config, a.ctx, msg, e);
    if EntropyStep(p.config, a.ctx, msg, e).1.Ok? {
      AcceptedEntropyKeepsInv(p, a, a', EntropyAccepted(KeyOf(msg), ConsentFor(msg, e).consent, e.now));
    } else {
      RefusedKeepsInv(p, a, a');
    }
  }

  /** A proof that stood, from what is known of the context and the acceptances it left. */
  lemma StandingProofKeepsInv(p: Platform, a: Attempt, a': Attempt, proof: Acceptance)
    requires AttemptInv(p, a) && a.ctx.phase == AWAITING_PROOF && SameButProgress(a.ctx, a'.ctx)
    requires Evaluated(a'.ctx.phase) && proof.ProofAccepted?
    requires proof.key !in a.ctx.seen && a'.ctx.seen == a.ctx.seen + {proof.key}
    requires a'.accepted == if a'.ctx.phase == TRUST_EVALUATED then a.accepted else a.accepted + [proof]
    requires Some(proof.hash) == TranscriptHash(p, TranscriptOf(a.ctx))
    requires p.verify(proof.proof.publicKey, proof.hash, proof.proof.signature)
    requires a'.ctx.phase != ACTIVE ==> a'.ctx.session == a.ctx.session
    requires a'.ctx.phase == ACTIVE ==>
      a'.ctx.session.Some? && Keyed(p, a.ctx, proof, a'.ctx.session.value)
    ensures AttemptInv(p, a')
  {
    assert TranscriptOf(a'.ctx) == TranscriptOf(a.ctx);
  }

  lemma ProofKeepsInv(p: Platform, a: Attempt, server: Server, msg: Members, i: ProofInput)
    requires AttemptInv(p, a)
    ensures var a' := OnProof(p, a, server, msg, i);
      && AttemptInv(p, a')
      && (a'.ctx.phase == a.ctx.phase || Rank(a'.ctx.phase) < Rank(a.ctx.phase))
      && SameButProgress(a.ctx, a'.ctx)
  {
    var a' := OnProof(p, a, server, msg, i);
    if ProofStands(p, a.ctx, msg) {
      ProofJudged(p, a.ctx, server, msg, i);
      var hash := TranscriptHash(p, TranscriptOf(a.ctx)).value;
      StandingProofKeepsInv(p, a, a', ProofAccepted(KeyOf(msg), ProofOf(msg).value, hash, i.now));
    } else {
      ProofRefused(p, a.ctx, server, msg, i);
      RefusedKeepsInv(p, a, a');
    }
  }

  /** A refused proof evaluates nothing and touches no shared state. */
  lemma RefusedAttempt(p: Platform, a: Attempt, server: Server, msg: Members, i: ProofInput)
    requires AttemptInv(p, a) && !ProofStands(p, a.ctx, msg)
    ensures ProofStep(p, a.ctx, server, msg, i).1 == server
    ensures var a' := OnProof(p, a, server, msg, i);
      && AttemptInv(p, a') && Evaluated(a'.ctx.phase) == Evaluated(a.ctx.phase)
      && a'.ctx.subject == a.ctx.subject && a'.ctx.iv == a.ctx.iv && a'.ctx.session == a.ctx.session
  {
    ProofRefused(p, a.ctx, server, msg, i);
    ProofKeepsInv(p, a, server, msg, i);
  }

  // ---- what the transcript binds -----------------------------------------

  /** A dictionary's meaning at a key is the meaning of the first member with it. */
  lemma {:induction false} MeaningOfMember(members: Members, key: string)
    ensures Get(members, key).Some? ==>
      key in MeaningMembers(members) && MeaningMembers(members)[key] == Meaning(Get(members, key).value)
  {
    if members != [] && members[0].key != key {
      MeaningOfMember(members[1..], key);
    }
  }

  lemma SameTextField(j: Json, j': Json, key: string, text: string, text': string)
    requires Meaning(j) == Meaning(j')
    requires BodyField(j, key) == Some(Str(text)) && BodyField(j', key) == Some(Str(text'))
    ensures text == text'
  {
    MeaningOfMember(j.members, "body");
    MeaningOfMember(j'.members, "body");
    MeaningOfMember(Get(j.members, "body").value.members, key);
    MeaningOfMember(Get(j'.members, "body").value.members, key);
  }

  ghost predicate CollisionFree(hash: Bytes -> string) {
    forall x, y :: hash(x) == hash(y) ==> x == y
  }

  lemma EnvelopeDistinct(kind: string, msgId: string, body: Members)
    requires DistinctMembers(body)
    ensures DistinctKeys(Envelope(kind, msgId, body))
  {
    var m := Envelope(kind, msgId, body).members;
    assert m[0].key[0] == 't' && m[1].key[0] == 'm' && m[2].key[0] == 'b';
    DifferentKeys(m);
  }

  /** The messages that the server builds are dictionaries. */
  lemma ChallengeDistinct(r: HelloRandoms)
    ensures DistinctKeys(ChallengeMessage(r))
  {
    var body := ChallengeMessage(r).members[2].value.members;
    assert |body[0].key| == 14 && |body[1].key| == 12 && |body[2].key| == 9;
    assert |body[3].key| == 10 && |body[4].key| == 17;
    DifferentKeys(body);
    EnvelopeDistinct("CHALLENGE", r.msgId, body);
  }

  lemma AckDistinct(iv: IdentityVector, msgId: string)
    ensures DistinctKeys(IdentityAckMessage(iv, msgId))
  {
    var body := IdentityAckMessage(iv, msgId).members[2].value.members;
    assert |body[0].key| == 18 && |body[1].key| == 9;
    DifferentKeys(body);
    EnvelopeDistinct("IDENTITY_ACK", msgId, body);
  }

  /** Equal transcript hashes fix the bytes of each of the server's two messages. */
  lemma SameServerMessages(p: Platform, m: Messages, m': Messages)
    requires CollisionFree(p.config.hash) && TranscriptHash(p, m).Some?
    requires TranscriptHash(p, m) == TranscriptHash(p, m')
    requires DistinctKeys(m.challenge) && DistinctKeys(m'.challenge)
    requires DistinctKeys(m.identityAck) && DistinctKeys(m'.identityAck)
    ensures Meaning(m.challenge) == Meaning(m'.challenge) && Meaning(m.identityAck) == Meaning(m'.identityAck)
  {
    PayloadBinds(m.Parts(), TRANSCRIPT_DOMAIN, m'.Parts(), TRANSCRIPT_DOMAIN);
    assert m.Parts()[1] == m'.Parts()[1] && m.Parts()[3] == m'.Parts()[3];
    CanonicalIffSameMeaning(m.challenge, m'.challenge);
    CanonicalIffSameMeaning(m.identityAck, m'.identityAck);
  }

  /**
    Two handshakes with one transcript hash were challenged with the same server
    key, and their identity vectors agree in every component within 1e-9.
  */
  lemma TranscriptBindsVector(p: Platform, a: Attempt, a': Attempt)
    requires CollisionFree(p.config.hash) && Compiling(p.config, a) && Compiling(p.config, a')
    requires TranscriptHash(p, TranscriptOf(a.ctx)).Some?
    requires TranscriptHash(p, TranscriptOf(a.ctx)) == TranscriptHash(p, TranscriptOf(a'.ctx))
    ensures a.ctx.eph == a'.ctx.eph
    ensures var v, v' := a.ctx.iv.value.vector, a'.ctx.iv.value.vector;
      |v| == |v'| && forall i | 0 <= i < |v| :: -0.000000001 < v[i] - v'[i] < 0.000000001
  {
    var m, m' := TranscriptOf(a.ctx), TranscriptOf(a'.ctx);
    SameServerMessages(p, m, m');
    SameTextField(m.challenge, m'.challenge, "server_eph_public", a.ctx.eph.value, a'.ctx.eph.value);
    SameTextField(m.identityAck, m'.identityAck, "iv_digest", a.ctx.iv.value.digest, a'.ctx.iv.value.digest);
    SameDigestSameVector(p.config, a.ctx.iv.value, a'.ctx.iv.value);
  }

  /** A signature that verifies, under one key, over one hash at most. */
  ghost predicate OneHash(p: Platform, proof: Proof) {
    forall hash, hash' ::
      (p.verify(proof.publicKey, hash, proof.signature) && p.verify(proof.publicKey, hash', proof.signature)) ==>
        hash == hash'
  }

  /** A captured proof cannot be replayed in another handshake, under whatever message id. */
  lemma ProofStandsOnce(p: Platform, a: Attempt, a': Attempt, msg: Members, msg': Members)
    requires CollisionFree(p.config.hash) && Compiling(p.config, a) && Compiling(p.config, a')
    requires ProofStands(p, a.ctx, msg) && a.ctx.eph != a'.ctx.eph
    requires ProofOf(msg') == ProofOf(msg) && OneHash(p, ProofOf(msg).value)
    ensures !ProofStands(p, a'.ctx, msg')
  {
    if ProofStands(p, a'.ctx, msg') {
      TranscriptBindsVector(p, a, a');
    }
  }

  lemma SameDigestSameVector(c: Config, iv: IdentityVector, iv': IdentityVector)
    requires CollisionFree(c.hash) && WellFormed(c, iv) && WellFormed(c, iv') && iv.digest == iv'.digest
    ensures |iv.vector| == |iv'.vector|
    ensures forall i | 0 <= i < |iv.vector| :: -0.000000001 < iv.vector[i] - iv'.vector[i] < 0.000000001
  {
    DigestPayloadBinds(iv.vector, iv'.vector);
    forall i | 0 <= i < |iv.vector| ensures -0.000000001 < iv.vector[i] - iv'.vector[i] < 0.000000001 {
      ScaledCell(iv.vector[i], iv'.vector[i]);
    }
  }
}

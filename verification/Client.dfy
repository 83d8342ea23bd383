/** The client's half of the handshake, and what an honest client can rely on. */
module Client {
  import opened Prelude
  import opened Handshake
  import opened Identity
  import opened Json
  import opened Scoring
  import opened Transcript
  import opened TrustLoop
  import Attempts

  /** A signing key by its public half and the signatures it makes. */
  datatype SigningKey = SigningKey(publicKey: string, sign: string -> string)

  function ClientEnvelope(kind: string, msgId: string, body: Members): Members {
    [Member("idp", Str("1.0")), Member("type", Str(kind)), Member("msg_id", Str(msgId)), Member("body", Obj(body))]
  }

  function BuildHello(msgId: string, nonce: string, ephPublic: string): Members {
    ClientEnvelope("HELLO", msgId, HelloBody(nonce, ephPublic))
  }

  function HelloBody(nonce: string, ephPublic: string): Members {
    [Member("client_version", Str("1.0.0")),
     Member("supported_suites", Arr([Str(SUITE)])),
     Member("nonce_c", Str(nonce)),
     Member("client_eph_public", Str(ephPublic))]
  }

  function BuildEntropy(msgId: string, deviceHash: string, behavior: Json, context: Json, consentId: string): Members {
    ClientEnvelope("ENTROPY", msgId, EntropyBody(deviceHash, behavior, context, consentId))
  }

  function EntropyBody(deviceHash: string, behavior: Json, context: Json, consentId: string): Members {
    [Member("device_dna_hash", Str(deviceHash)),
     Member("behavioral_sample", behavior),
     Member("context", context),
     Member("consent_receipt_id", Str(consentId))]
  }

  /** Signs the transcript as the client saw it; `None` is its overflow error. */
  function BuildProof(p: Platform, key: SigningKey, msgId: string, m: Messages): Option<Members> {
    match TranscriptHash(p, m)
    case None => None
    case Some(hash) =>
      Some(ClientEnvelope("PROOF", msgId, [
        Member("signature", Str(key.sign(hash))),
        Member("public_key", Str(key.publicKey))]))
  }

  /** A signature verifies over the hash that was signed and over no other. */
  ghost predicate Signs(p: Platform, key: SigningKey) {
    forall hash, hash' :: p.verify(Str(key.publicKey), hash', Str(key.sign(hash))) <==> hash == hash'
  }

  // ---- messages are read as they were built ------------------------------

  lemma EnvelopeFields(kind: string, msgId: string, body: Members)
    ensures Get(ClientEnvelope(kind, msgId, body), "idp") == Some(Str("1.0"))
    ensures Get(ClientEnvelope(kind, msgId, body), "type") == Some(Str(kind))
    ensures Get(ClientEnvelope(kind, msgId, body), "msg_id") == Some(Str(msgId))
    ensures Get(ClientEnvelope(kind, msgId, body), "body") == Some(Obj(body))
  {
    var m := ClientEnvelope(kind, msgId, body);
    assert m[0].key[0] == 'i' && m[1].key[0] == 't' && m[2].key[0] == 'm' && m[3].key[0] == 'b';
    GetEach(m, 0);
    GetEach(m, 1);
    GetEach(m, 2);
    GetEach(m, 3);
  }

  lemma FreshId(seen: set<Json>, kind: string, msgId: string, body: Members)
    requires msgId != "" && Str(msgId) !in seen
    ensures CheckMsgId(seen, ClientEnvelope(kind, msgId, body)) == Ok(seen + {Str(msgId)})
  {
    EnvelopeFields(kind, msgId, body);
  }

  lemma ProofFields(p: Platform, key: SigningKey, msgId: string, m: Messages)
    requires TranscriptHash(p, m).Some?
    ensures ProofOf(BuildProof(p, key, msgId, m).value) ==
      Some(Proof(Str(key.publicKey), Str(key.sign(TranscriptHash(p, m).value))))
  {
    var body := [Member("signature", Str(key.sign(TranscriptHash(p, m).value))),
                 Member("public_key", Str(key.publicKey))];
    EnvelopeFields("PROOF", msgId, body);
    assert body[0].key[0] == 's' && body[1].key[0] == 'p';
    GetPasses([], body[0], [body[1]]);
    GetPasses([body[0]], body[1], []);
    assert body == [] + [body[0]] + [body[1]] == [body[0]] + [body[1]] + [];
  }

  // ---- the honest proof --------------------------------------------------

  lemma SameHash(p: Platform, m: Messages, m': Messages)
    requires Attempts.CollisionFree(p.config.hash) && m.DistinctKeys() && m'.DistinctKeys()
    requires TranscriptPayload(m).Ok? && TranscriptPayload(m').Ok?
    ensures TranscriptHash(p, m) == TranscriptHash(p, m') <==> SameMeaning(m, m')
  {
    TranscriptBinds(m, m');
  }

  /**
    An honest client's proof, sent under a new id, stands exactly when all four
    messages mean the same to the client and to the server; otherwise the handshake
    is rejected.
  */
  lemma HonestProof(p: Platform, key: SigningKey, seen: Messages, msgId: string, ctx: Ctx, server: Server,
                    i: ProofInput)
    requires Signs(p, key) && Attempts.CollisionFree(p.config.hash)
    requires ctx.phase == AWAITING_PROOF && ReadyForProof(ctx) && msgId != "" && Str(msgId) !in ctx.seen
    requires seen.DistinctKeys() && TranscriptOf(ctx).DistinctKeys()
    requires TranscriptPayload(seen).Ok? && TranscriptPayload(TranscriptOf(ctx)).Ok?
    ensures BuildProof(p, key, msgId, seen).Some?
    ensures var proof := BuildProof(p, key, msgId, seen).value;
      && (Attempts.ProofStands(p, ctx, proof) <==> SameMeaning(seen, TranscriptOf(ctx)))
      && (ProofStep(p, ctx, server, proof, i).0.phase == REJECTED <==> !SameMeaning(seen, TranscriptOf(ctx)))
  {
    var proof := BuildProof(p, key, msgId, seen).value;
    var hash, hash' := TranscriptHash(p, seen).value, TranscriptHash(p, TranscriptOf(ctx)).value;
    FreshId(ctx.seen, "PROOF", msgId,
            [Member("signature", Str(key.sign(hash))), Member("public_key", Str(key.publicKey))]);
    ProofFields(p, key, msgId, seen);
    SameHash(p, seen, TranscriptOf(ctx));
    assert p.verify(Str(key.publicKey), hash', Str(key.sign(hash))) <==> hash == hash';
    if Attempts.ProofStands(p, ctx, proof) {
      Attempts.ProofJudged(p, ctx, server, proof, i);
    }
  }

  // ---- the honest run ----------------------------------------------------

  lemma HelloFields(nonce: string, ephPublic: string)
    ensures Get(HelloBody(nonce, ephPublic), "client_version") == Some(Str("1.0.0"))
    ensures Get(HelloBody(nonce, ephPublic), "supported_suites") == Some(Arr([Str("ed25519-blake3-argon2id")]))
    ensures Get(HelloBody(nonce, ephPublic), "nonce_c") == Some(Str(nonce))
    ensures Get(HelloBody(nonce, ephPublic), "client_eph_public") == Some(Str(ephPublic))
  {
    var body := HelloBody(nonce, ephPublic);
    assert |body[0].key| == 14 && |body[1].key| == 16 && |body[2].key| == 7 && |body[3].key| == 17;
    GetEach(body, 0);
    GetEach(body, 1);
    GetEach(body, 2);
    GetEach(body, 3);
  }

  lemma HelloOffers(nonce: string, ephPublic: string)
    ensures OffersSuite(HelloBody(nonce, ephPublic)) == Some(true)
    ensures Get(HelloBody(nonce, ephPublic), "client_eph_public") == Some(Str(ephPublic))
  {
    HelloFields(nonce, ephPublic);
    assert Str(SUITE) in [Str(SUITE)];
  }

  /** Key agreement uses the ephemeral key of the client's HELLO. */
  lemma PeerIsClient(msgId: string, nonce: string, ephPublic: string, publicKey: Json)
    requires ephPublic != ""
    ensures PeerKey(Obj(BuildHello(msgId, nonce, ephPublic)), publicKey) == Str(ephPublic)
  {
    EnvelopeFields("HELLO", msgId, HelloBody(nonce, ephPublic));
    HelloOffers(nonce, ephPublic);
  }

  lemma HonestHello(ctx: Ctx, msgId: string, nonce: string, ephPublic: string, r: HelloRandoms)
    requires ctx.phase == NEW && msgId != "" && Str(msgId) !in ctx.seen
    ensures var msg := BuildHello(msgId, nonce, ephPublic);
      HelloStep(ctx, msg, r) ==
        (ctx.(seen := ctx.seen + {Str(msgId)}, phase := CHALLENGED, eph := Some(r.ephPublic), hello := Some(Obj(msg)),
              challenge := Some(ChallengeMessage(r))),
         Ok(ChallengeMessage(r)))
  {
    FreshId(ctx.seen, "HELLO", msgId, HelloBody(nonce, ephPublic));
    EnvelopeFields("HELLO", msgId, HelloBody(nonce, ephPublic));
    HelloOffers(nonce, ephPublic);
  }

  lemma EntropyFields(deviceHash: string, behavior: Json, context: Json, consentId: string)
    ensures var body := EntropyBody(deviceHash, behavior, context, consentId);
      && Get(body, "device_dna_hash") == Some(Str(deviceHash)) && Get(body, "behavioral_sample") == Some(behavior)
      && Get(body, "context") == Some(context) && Get(body, "consent_receipt_id") == Some(Str(consentId))
  {
    var body := EntropyBody(deviceHash, behavior, context, consentId);
    assert |body[0].key| == 15 && |body[1].key| == 17 && |body[2].key| == 7 && |body[3].key| == 18;
    GetEach(body, 0);
    GetEach(body, 1);
    GetEach(body, 2);
    GetEach(body, 3);
  }

  lemma HonestEntropy(c: Config, ctx: Ctx, msgId: string, deviceHash: string, behavior: Json, context: Json,
                      consentId: string, e: EntropyInput)
    requires ctx.phase == CHALLENGED && msgId != "" && Str(msgId) !in ctx.seen && e.Fits(c)
    requires e.lookup(Str(consentId)).Found? && e.lookup(Str(consentId)).consent.IsValid(e.now)
    requires Compiled(c, e.lookup(Str(consentId)).consent, e).Some?
    ensures var msg := BuildEntropy(msgId, deviceHash, behavior, context, consentId);
      var (ctx', reply) := EntropyStep(c, ctx, msg, e);
      && reply.Ok?
      && ctx' == ctx.(seen := ctx.seen + {Str(msgId)}, phase := AWAITING_PROOF, entropy := Some(Obj(msg)),
                      identityAck := Some(reply.value), iv := Compiled(c, e.lookup(Str(consentId)).consent, e),
                      subject := Some(e.lookup(Str(consentId)).consent.subject))
  {
    EntropyFields(deviceHash, behavior, context, consentId);
    var body := EntropyBody(deviceHash, behavior, context, consentId);
    FreshId(ctx.seen, "ENTROPY", msgId, body);
    EnvelopeFields("ENTROPY", msgId, body);
  }

  /** What an honest handshake is made of: the client's three message ids and fields, and what the server meets. */
  datatype Honest = Honest(
    ids: (string, string, string), nonce: string, ephPublic: string, randoms: HelloRandoms,
    deviceHash: string, behavior: Json, context: Json, consentId: string, e: EntropyInput, i: ProofInput)
  {
    function Hello(): Members {
      BuildHello(ids.0, nonce, ephPublic)
    }

    function Entropy(): Members {
      BuildEntropy(ids.1, deviceHash, behavior, context, consentId)
    }

    function FoundConsent(): Lookup {
      e.lookup(Str(consentId))
    }

    /** Three different ids, a consent valid at both checks, and signals that compile. */
    predicate Sound(c: Config) {
      && ids.0 != "" && ids.1 != "" && ids.2 != "" && ids.0 != ids.1 && ids.1 != ids.2 && ids.0 != ids.2
      && e.Fits(c) && FoundConsent().Found? && FoundConsent().consent.IsValid(e.now)
      && Compiled(c, FoundConsent().consent, e).Some?
    }

    function Challenge(): (Ctx, Result<Json, Failure>) {
      HelloStep(FRESH, Hello(), randoms)
    }

    function Ack(c: Config): (Ctx, Result<Json, Failure>)
      requires Sound(c)
    {
      EntropyStep(c, Challenge().0, Entropy(), e)
    }

    /** The transcript exists, and no message overflows its length prefix. */
    predicate Sendable(c: Config)
      requires Sound(c)
    {
      ReadyForProof(Ack(c).0) && TranscriptPayload(TranscriptOf(Ack(c).0)).Ok?
    }

    /** The server's answer to the proof that the client signs over the messages it saw. */
    function Proven(p: Platform, key: SigningKey, server: Server): (Ctx, Server, Result<Verdict, Failure>)
      requires Sound(p.config) && Sendable(p.config)
    {
      var ctx := Ack(p.config).0;
      ProofStep(p, ctx, server, BuildProof(p, key, ids.2, TranscriptOf(ctx)).value, i)
    }

    /** The session that it is judged on. */
    function Judged(c: Config): Session
      requires Sound(c) && Sendable(c)
    {
      Attempts.SessionOf(Ack(c).0, i)
    }
  }

  /** The context that the first two messages leave. */
  lemma HonestContext(c: Config, h: Honest)
    requires h.Sound(c)
    ensures h.Challenge().1.Ok? && h.Ack(c).1.Ok?
    ensures var ctx := h.Ack(c).0;
      && ctx.phase == AWAITING_PROOF && ReadyForProof(ctx)
      && ctx.seen == {Str(h.ids.0), Str(h.ids.1)} && ctx.eph == Some(h.randoms.ephPublic)
      && ctx.iv == Compiled(c, h.FoundConsent().consent, h.e) && ctx.subject == Some(h.FoundConsent().consent.subject)
      && TranscriptOf(ctx) ==
           Messages(Obj(h.Hello()), h.Challenge().1.value, Obj(h.Entropy()), h.Ack(c).1.value)
  {
    HonestHello(FRESH, h.ids.0, h.nonce, h.ephPublic, h.randoms);
    HonestEntropy(c, h.Challenge().0, h.ids.1, h.deviceHash, h.behavior, h.context, h.consentId, h.e);
  }

  /** A proof signed over the very transcript of the context stands. */
  lemma OwnProofStands(p: Platform, key: SigningKey, msgId: string, ctx: Ctx)
    requires Signs(p, key) && ctx.phase == AWAITING_PROOF && ReadyForProof(ctx)
    requires msgId != "" && Str(msgId) !in ctx.seen && TranscriptPayload(TranscriptOf(ctx)).Ok?
    ensures BuildProof(p, key, msgId, TranscriptOf(ctx)).Some?
    ensures Attempts.ProofStands(p, ctx, BuildProof(p, key, msgId, TranscriptOf(ctx)).value)
    ensures ProofOf(BuildProof(p, key, msgId, TranscriptOf(ctx)).value).Some?
  {
    var hash := TranscriptHash(p, TranscriptOf(ctx)).value;
    FreshId(ctx.seen, "PROOF", msgId,
            [Member("signature", Str(key.sign(hash))), Member("public_key", Str(key.publicKey))]);
    ProofFields(p, key, msgId, TranscriptOf(ctx));
    assert p.verify(Str(key.publicKey), hash, Str(key.sign(hash)));
  }

  /** What such a proof leads to, when the HELLO named the client's ephemeral key. */
  lemma OwnProofOutcome(p: Platform, key: SigningKey, msgId: string, ctx: Ctx, server: Server, i: ProofInput,
                        ephPublic: string)
    requires Signs(p, key) && ctx.phase == AWAITING_PROOF && ReadyForProof(ctx)
    requires msgId != "" && Str(msgId) !in ctx.seen && TranscriptPayload(TranscriptOf(ctx)).Ok?
    requires forall publicKey :: PeerKey(ctx.hello.value, publicKey) == Str(ephPublic)
    ensures BuildProof(p, key, msgId, TranscriptOf(ctx)).Some?
    ensures var (ctx', server', _) :=
        ProofStep(p, ctx, server, BuildProof(p, key, msgId, TranscriptOf(ctx)).value, i);
      var s := Attempts.SessionOf(ctx, i);
      && Attempts.Evaluated(ctx'.phase) && server'.tables == Learn(p.config, server.tables, s)
      && (ctx'.phase == DENIED <==> JudgeIn(p.config, server.tables, s).decision == DENY)
      && (JudgeIn(p.config, server.tables, s).decision == STEP_UP ==>
           (ctx'.phase == ACTIVE <==> p.agree(ctx.eph.value, Str(ephPublic)).Some?))
  {
    OwnProofStands(p, key, msgId, ctx);
    var msg := BuildProof(p, key, msgId, TranscriptOf(ctx)).value;
    Attempts.ProofJudged(p, ctx, server, msg, i);
    if JudgeIn(p.config, server.tables, Attempts.SessionOf(ctx, i)).decision == STEP_UP {
      Attempts.StepUpActivates(p, ctx, server, msg, i);
    }
  }

  lemma HonestPeer(h: Honest, ctx: Ctx)
    requires h.ephPublic != "" && ctx.hello == Some(Obj(h.Hello()))
    ensures forall publicKey :: PeerKey(ctx.hello.value, publicKey) == Str(h.ephPublic)
  {
    forall publicKey ensures PeerKey(ctx.hello.value, publicKey) == Str(h.ephPublic) {
      PeerIsClient(h.ids.0, h.nonce, h.ephPublic, publicKey);
    }
  }

  /** The context that the client's proof meets. */
  lemma ContextForProof(c: Config, h: Honest, ctx: Ctx)
    requires h.Sound(c) && ctx == h.Ack(c).0 && h.ephPublic != ""
    ensures h.Challenge().1.Ok? && h.Ack(c).1.Ok?
    ensures ctx.phase == AWAITING_PROOF && ReadyForProof(ctx) && ctx.eph == Some(h.randoms.ephPublic)
    ensures Str(h.ids.2) !in ctx.seen
    ensures forall publicKey :: PeerKey(ctx.hello.value, publicKey) == Str(h.ephPublic)
  {
    HonestContext(c, h);
    HonestPeer(h, ctx);
  }

  /**
    The honest run: the client's three messages are accepted and its proof is
    trust-evaluated, learned from, and denied exactly when the trust loop denies it;
    stepped up, it activates the handshake exactly when the server's key agrees with
    the client's own ephemeral key.
  */
  lemma HonestRun(p: Platform, key: SigningKey, h: Honest, server: Server)
    requires Signs(p, key) && h.Sound(p.config) && h.Sendable(p.config) && h.ephPublic != ""
    ensures h.Challenge().1.Ok? && h.Ack(p.config).1.Ok?
    ensures var (ctx, server', _) := h.Proven(p, key, server);
      var s := h.Judged(p.config);
      && Attempts.Evaluated(ctx.phase)
      && server'.tables == Learn(p.config, server.tables, s)
      && (ctx.phase == DENIED <==> JudgeIn(p.config, server.tables, s).decision == DENY)
      && (JudgeIn(p.config, server.tables, s).decision == STEP_UP ==>
           (ctx.phase == ACTIVE <==> p.agree(h.randoms.ephPublic, Str(h.ephPublic)).Some?))
  {
    var ctx := h.Ack(p.config).0;
    ContextForProof(p.config, h, ctx);
    OwnProofOutcome(p, key, h.ids.2, ctx, server, h.i, h.ephPublic);
  }

  lemma HonestVector(c: Config, h: Honest)
    requires c.Valid() && h.Sound(c) && h.Sendable(c)
    ensures WellFormed(c, h.Judged(c).iv)
  {
    HonestContext(c, h);
    var l := h.e.layers.value;
    CompileIsWellFormed(c, h.e.vectorId, l.device, l.behavior, l.context);
  }

  /**
    A new subject: its first honest handshake is denied and enrols it; a second one
    that compiles to the same vector ends ACTIVE exactly when its own signals pass
    and key agreement succeeds, and is denied when they do not pass.
  */
  lemma NewSubject(p: Platform, key: SigningKey, h: Honest, h': Honest, server: Server)
    requires p.config.Valid() && Signs(p, key)
    requires h.Sound(p.config) && h.Sendable(p.config) && h.ephPublic != ""
    requires h'.Sound(p.config) && h'.Sendable(p.config) && h'.ephPublic != ""
    requires var s, s' := h.Judged(p.config), h'.Judged(p.config);
      && s'.subject == s.subject && s'.iv.vector == s.iv.vector
      && StandingOf(server.tables, s.subject) == Standing(None, [])
    ensures var (ctx, server', _) := h.Proven(p, key, server);
      var (ctx', _, _) := h'.Proven(p, key, server');
      var passes := Passes(p.config, h'.Judged(p.config));
      && ctx.phase == DENIED
      && (ctx'.phase == ACTIVE <==> passes && p.agree(h'.randoms.ephPublic, Str(h'.ephPublic)).Some?)
      && (ctx'.phase == DENIED <==> !passes)
  {
    var c, s, s' := p.config, h.Judged(p.config), h'.Judged(p.config);
    var server' := h.Proven(p, key, server).1;
    var st := Standing(None, []);
    HonestVector(c, h);
    HonestVector(c, h');
    HonestRun(p, key, h, server);
    Plateau(c, st, s);
    LearnedExactly(c, st, s);
    LearnIsLocal(c, server.tables, s, s.subject);
    SecondSession(c, StandingOf(server'.tables, s.subject), s');
    HonestRun(p, key, h', server');
  }
}

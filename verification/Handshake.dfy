/**
  One handshake's state machine, as functions on values: what each message does
  to its context and to the server's baselines, history and sessions.
*/
module Handshake {
  import opened Prelude
  import opened Framing
  import opened Identity
  import opened Json
  import opened Scoring
  import opened Storage
  import opened Transcript
  import opened TrustLoop
  import CanonicalJson
  import Registry
  import Sessions
  import Vectors

  datatype Phase =
    | NEW | CHALLENGED | AWAITING_PROOF | VERIFYING | TRUST_EVALUATED | ACTIVE | DENIED | REJECTED

  datatype ErrorCode =
    | ERR_STATE_INVALID | ERR_MALFORMED | ERR_REPLAY | ERR_SUITE_UNSUPPORTED | ERR_CONSENT_MISSING
    | ERR_SIGNATURE_INVALID

  /** A protocol error is answered with its code; any other exception escapes the handler. */
  datatype Failure = Protocol(code: ErrorCode) | Uncaught

  /** The server's state for one handshake attempt. */
  datatype Ctx = Ctx(
    phase: Phase,
    seen: set<Json>,
    eph: Option<string>,
    hello: Option<Json>,
    challenge: Option<Json>,
    entropy: Option<Json>,
    identityAck: Option<Json>,
    iv: Option<IdentityVector>,
    subject: Option<string>,
    session: Option<Sessions.SessionDna>)

  const FRESH := Ctx(NEW, {}, None, None, None, None, None, None, None, None)

  /** The state the handshakes share. */
  datatype Server = Server(tables: Tables, sessions: Sessions.Store)

  /**
    The library calls: signature verification of a public key, a hash and a
    signature, and key agreement of the server's key pair, named by its public
    half, with a peer's public key; `None` is the exception of an unusable key.
  */
  datatype Platform =
    Platform(config: Config, verify: (Json, string, Json) -> bool, agree: (string, Json) -> Option<Bytes>)

  // ---- messages ----------------------------------------------------------

  type Members = seq<Member>

  function Get(members: Members, key: string): Option<Json> {
    if members == [] then None
    else if members[0].key == key then Some(members[0].value)
    else Get(members[1..], key)
  }

  function GetOrNull(members: Members, key: string): Json {
    match Get(members, key)
    case None => Null
    case Some(value) => value
  }

  predicate Truthy(j: Json) {
    match j
    case Null => false
    case Bool(b) => b
    case Int(n) => n != 0
    case Float(text) => text != "0.0" && text != "-0.0"
    case Str(s) => s != ""
    case Arr(items) => items != []
    case Obj(members) => members != []
  }

  /** Lists and dictionaries cannot be set members; a boolean equals the integer it counts as. */
  function SetKey(j: Json): Option<Json> {
    match j
    case Arr(_) => None
    case Obj(_) => None
    case Bool(b) => Some(Int(if b then 1 else 0))
    case _ => Some(j)
  }

  /** The envelope's id, or else the one in its body. */
  function MsgId(msg: Members): Result<Json, Failure> {
    if Truthy(GetOrNull(msg, "msg_id")) then Ok(GetOrNull(msg, "msg_id"))
    else
      match Get(msg, "body")
      case None => Ok(Null)
      case Some(Obj(body)) => Ok(GetOrNull(body, "msg_id"))
      case Some(_) => Err(Uncaught)
  }

  /** The ids seen once this message is, or why it is refused. */
  function CheckMsgId(seen: set<Json>, msg: Members): Result<set<Json>, Failure> {
    match MsgId(msg)
    case Err(e) => Err(e)
    case Ok(id) =>
      if id == Null then Err(Protocol(ERR_MALFORMED))
      else
        match SetKey(id)
        case None => Err(Uncaught)
        case Some(key) => if key in seen then Err(Protocol(ERR_REPLAY)) else Ok(seen + {key})
  }

  /** Whatever was accepted once is a replay from then on. */
  lemma ReplayRefused(seen: set<Json>, msg: Members)
    requires CheckMsgId(seen, msg).Ok?
    ensures CheckMsgId(CheckMsgId(seen, msg).value, msg) == Err(Protocol(ERR_REPLAY))
  {
  }

  /** The envelope's text wins over the body's, and a message with neither is malformed. */
  lemma WhichIdCounts(seen: set<Json>, msg: Members, body: Members, id: string)
    requires id != "" && Get(msg, "body") == Some(Obj(body))
    ensures Get(msg, "msg_id") == Some(Str(id)) ||
            (Get(msg, "msg_id").None? && Get(body, "msg_id") == Some(Str(id))) ==>
      CheckMsgId(seen, msg) == if Str(id) in seen then Err(Protocol(ERR_REPLAY)) else Ok(seen + {Str(id)})
    ensures Get(msg, "msg_id").None? && Get(body, "msg_id").None? ==>
      CheckMsgId(seen, msg) == Err(Protocol(ERR_MALFORMED))
  {
  }

  /** The first member of a key is the one that counts. */
  lemma GetExactly(members: Members, m: Member, key: string)
    ensures Get([], key) == None
    ensures Get([m] + members, key) == if m.key == key then Some(m.value) else Get(members, key)
  {
    assert ([m] + members)[1..] == members;
  }

  /** What Python takes for false, and so for no id and no key. */
  lemma FalsyExactly(j: Json)
    ensures !Truthy(j) <==>
      j == Null || j == Bool(false) || j == Int(0) || j == Str("") || j == Arr([]) || j == Obj([])
      || (j.Float? && (j.text == "0.0" || j.text == "-0.0"))
  {
  }

  /** Which ids can be remembered, and which of them are the same one to a Python set. */
  lemma SameKeyExactly(a: Json, b: Json)
    ensures SetKey(a).None? <==> a.Arr? || a.Obj?
    ensures SetKey(a).Some? && SetKey(b).Some? ==>
      (SetKey(a) == SetKey(b) <==>
        || a == b
        || (a.Bool? && b.Int? && b.n == if a.b then 1 else 0)
        || (b.Bool? && a.Int? && a.n == if b.b then 1 else 0))
  {
  }

  /** Python's `True` and `1` are one set member, so one id replays the other. */
  lemma BooleanIdsCollide(seen: set<Json>, msg: Members, msg': Members)
    requires Get(msg, "msg_id") == Some(Bool(true)) && Get(msg', "msg_id") == Some(Int(1))
    ensures CheckMsgId(seen, msg).Ok? ==> CheckMsgId(CheckMsgId(seen, msg).value, msg') == Err(Protocol(ERR_REPLAY))
    ensures CheckMsgId(seen, msg').Ok? ==> CheckMsgId(CheckMsgId(seen, msg').value, msg) == Err(Protocol(ERR_REPLAY))
  {
  }

  /** Members before the first of a key are passed over. */
  lemma {:induction false} GetPasses(front: Members, m: Member, rest: Members)
    requires forall i | 0 <= i < |front| :: front[i].key != m.key
    ensures Get(front + [m] + rest, m.key) == Some(m.value)
  {
    var all := front + [m] + rest;
    if front != [] {
      GetPasses(front[1..], m, rest);
      assert all[0] == front[0] && all[1..] == front[1..] + [m] + rest;
    }
  }

  /** Under different keys, every member is found under its own. */
  lemma GetEach(members: Members, n: nat)
    requires n < |members| && forall i, j | 0 <= i < j < |members| :: members[i].key != members[j].key
    ensures Get(members, members[n].key) == Some(members[n].value)
  {
    GetPasses(members[..n], members[n], members[n + 1..]);
    assert members == members[..n] + [members[n]] + members[n + 1..];
  }

  /** A field of a message's body. */
  function BodyField(j: Json, key: string): Option<Json> {
    match j
    case Obj(msg) =>
      (match Get(msg, "body")
       case Some(Obj(body)) => Get(body, key)
       case _ => None)
    case _ => None
  }

  // ---- HELLO -------------------------------------------------------------

  const SUITE := "ed25519-blake3-argon2id"

  predicate PartAt(s: string, part: string, i: nat) {
    i + |part| <= |s| && s[i..i + |part|] == part
  }

  predicate Contains(s: string, part: string) {
    exists i | 0 <= i <= |s| :: PartAt(s, part, i)
  }

  /** Membership in whatever `supported_suites` is; `None` is a value that has no members. */
  function OffersSuite(body: Members): Option<bool> {
    match Get(body, "supported_suites")
    case None => Some(false)
    case Some(Arr(items)) => Some(Str(SUITE) in items)
    case Some(Str(s)) => Some(Contains(s, SUITE))
    case Some(Obj(members)) => Some(Get(members, SUITE).Some?)
    case Some(_) => None
  }

  lemma ContainsExactly(s: string, part: string)
    ensures Contains(s, part) <==> exists before, after :: s == before + part + after
  {
    if Contains(s, part) {
      var i :| 0 <= i <= |s| && PartAt(s, part, i);
      assert s == s[..i] + part + s[i + |part|..];
    }
    if before, after :| s == before + part + after {
      assert PartAt(s, part, |before|);
    }
  }

  /**
    The one suite is offered by a list with its name in it, a text with its name
    anywhere in it, or a dictionary with its name as a key; no list is no offer, and
    a value that has no members raises an exception.
  */
  lemma OffersExactly(body: Members)
    ensures var suites, suite := Get(body, "supported_suites"), "ed25519-blake3-argon2id";
      && (OffersSuite(body) == Some(true) <==>
           && suites.Some?
           && ((suites.value.Arr? && Str(suite) in suites.value.items)
               || (suites.value.Str? && exists before, after :: suites.value.s == before + suite + after)
               || (suites.value.Obj? && Get(suites.value.members, suite).Some?)))
      && (OffersSuite(body) == None <==>
           suites.Some? && !suites.value.Arr? && !suites.value.Str? && !suites.value.Obj?)
  {
    match Get(body, "supported_suites")
    case Some(Str(s)) => ContainsExactly(s, SUITE);
    case _ =>
  }

  /** The random material of a challenge, in base64, and its message id. */
  datatype HelloRandoms = HelloRandoms(nonce: string, challenge: string, ephPublic: string, msgId: string)

  function Envelope(kind: string, msgId: string, body: Members): Json {
    Obj([Member("type", Str(kind)), Member("msg_id", Str(msgId)), Member("body", Obj(body))])
  }

  function ChallengeMessage(r: HelloRandoms): Json {
    Envelope("CHALLENGE", r.msgId, ChallengeBody(r))
  }

  function ChallengeBody(r: HelloRandoms): Members {
    [Member("selected_suite", Str(SUITE)),
     Member("server_nonce", Str(r.nonce)),
     Member("challenge", Str(r.challenge)),
     Member("difficulty", Int(0)),
     Member("server_eph_public", Str(r.ephPublic))]
  }

  /** The challenge carries the suite, the server's nonce, the puzzle and the ephemeral key. */
  lemma ChallengeCarries(r: HelloRandoms)
    ensures BodyField(ChallengeMessage(r), "selected_suite") == Some(Str("ed25519-blake3-argon2id"))
    ensures BodyField(ChallengeMessage(r), "server_nonce") == Some(Str(r.nonce))
    ensures BodyField(ChallengeMessage(r), "challenge") == Some(Str(r.challenge))
    ensures BodyField(ChallengeMessage(r), "difficulty") == Some(Int(0))
    ensures BodyField(ChallengeMessage(r), "server_eph_public") == Some(Str(r.ephPublic))
  {
    var body := ChallengeBody(r);
    ChallengeKeys(r);
    forall n | 0 <= n < 5 ensures BodyField(ChallengeMessage(r), body[n].key) == Some(body[n].value) {
      GetEach(body, n);
      EnvelopeBody("CHALLENGE", r.msgId, body);
    }
    assert body[0].key == "selected_suite" && body[1].key == "server_nonce" && body[2].key == "challenge";
    assert body[3].key == "difficulty" && body[4].key == "server_eph_public";
  }

  lemma ChallengeKeys(r: HelloRandoms)
    ensures forall i, j | 0 <= i < j < 5 :: ChallengeBody(r)[i].key != ChallengeBody(r)[j].key
  {
    var body := ChallengeBody(r);
    assert |body[0].key| == 14 && |body[1].key| == 12 && |body[2].key| == 9;
    assert |body[3].key| == 10 && |body[4].key| == 17;
  }

  lemma EnvelopeBody(kind: string, msgId: string, body: Members)
    ensures Get(Envelope(kind, msgId, body).members, "body") == Some(Obj(body))
  {
    var front, last := [Member("type", Str(kind)), Member("msg_id", Str(msgId))], Member("body", Obj(body));
    assert front[0].key[0] == 't' && front[1].key[0] == 'm' && last.key[0] == 'b';
    GetPasses(front, last, []);
    assert front + [last] + [] == Envelope(kind, msgId, body).members;
  }

  function HelloStep(ctx: Ctx, msg: Members, r: HelloRandoms): (Ctx, Result<Json, Failure>) {
    if ctx.phase != NEW then (ctx, Err(Protocol(ERR_STATE_INVALID)))
    else
      match CheckMsgId(ctx.seen, msg)
      case Err(e) => (ctx, Err(e))
      case Ok(seen) =>
        var marked := ctx.(seen := seen);
        match Get(msg, "body")
        case Some(Obj(body)) =>
          (match OffersSuite(body)
           case None => (marked, Err(Uncaught))
           case Some(offered) =>
             if !offered then (marked, Err(Protocol(ERR_SUITE_UNSUPPORTED)))
             else
               var challenge := ChallengeMessage(r);
               (marked.(phase := CHALLENGED, eph := Some(r.ephPublic), hello := Some(Obj(msg)),
                        challenge := Some(challenge)),
                Ok(challenge)))
        case _ => (marked, Err(Uncaught))
  }

  // ---- ENTROPY -----------------------------------------------------------

  const DEVICE_SCOPE := "device_dna"

  datatype Consent = Consent(id: string, subject: string, scopes: seq<string>, issuedAt: int, expiresAt: int) {
    predicate IsValid(now: int) {
      DEVICE_SCOPE in scopes && issuedAt <= now <= expiresAt
    }
  }

  /** What the consent store answers: `Raised` is the exception of an id it cannot look up. */
  datatype Lookup = Found(consent: Consent) | Missing | Raised

  /**
    The server's own lookup in a dictionary of receipts: anything empty is no id,
    and a list or dictionary that is not empty cannot be a key.
  */
  function ServerLookup(receipts: map<string, Consent>, id: Json): Lookup {
    if !Truthy(id) then Missing
    else if SetKey(id).None? then Raised
    else
      match id
      case Str(s) => if s in receipts then Found(receipts[s]) else Missing
      case _ => Missing
  }

  /** A receipt is found under its own id, which is a text that is not empty, and under nothing else. */
  lemma FoundExactly(receipts: map<string, Consent>, id: Json)
    ensures ServerLookup(receipts, id).Found? <==> id.Str? && id.s != "" && id.s in receipts
    ensures ServerLookup(receipts, id).Found? ==> ServerLookup(receipts, id) == Found(receipts[id.s])
    ensures ServerLookup(receipts, id).Raised? <==>
      (id.Arr? && id.items != []) || (id.Obj? && id.members != [])
  {
  }

  /** The bytes the three layers expand to. */
  datatype Layers = Layers(device: Bytes, behavior: Bytes, context: Bytes) {
    predicate Fit(c: Config) {
      |device| == |behavior| == |context| == c.dim
    }
  }

  /**
    What an ENTROPY message meets: the consent store's answers, the gateway's
    clock reading and the compiler's, the normalised layers (`None` when a
    normaliser rejects the raw signals), and the new ids.
  */
  datatype EntropyInput = EntropyInput(
    lookup: Json -> Lookup, now: int, later: int, layers: Option<Layers>, vectorId: string, msgId: string)
  {
    predicate Fits(c: Config) {
      layers.Some? ==> layers.value.Fit(c)
    }
  }

  function IdentityAckMessage(iv: IdentityVector, msgId: string): Json {
    Envelope("IDENTITY_ACK", msgId, [
      Member("identity_vector_id", Str(iv.id)),
      Member("iv_digest", Str(iv.digest))])
  }

  /** The acknowledgement carries the vector's id and digest. */
  lemma AckCarries(iv: IdentityVector, msgId: string)
    ensures BodyField(IdentityAckMessage(iv, msgId), "identity_vector_id") == Some(Str(iv.id))
    ensures BodyField(IdentityAckMessage(iv, msgId), "iv_digest") == Some(Str(iv.digest))
  {
    var id, digest := Member("identity_vector_id", Str(iv.id)), Member("iv_digest", Str(iv.digest));
    assert id.key[1] == 'd' && digest.key[1] == 'v';
    GetPasses([], id, [digest]);
    GetPasses([id], digest, []);
    assert [] + [id] + [digest] == [id] + [digest] + [] == [id, digest];
    EnvelopeBody("IDENTITY_ACK", msgId, [id, digest]);
  }

  /** The consent check of the compiler comes after the gateway's own, and raises its own exception. */
  function Compiled(c: Config, consent: Consent, e: EntropyInput): Option<IdentityVector>
    requires e.Fits(c)
  {
    if !consent.IsValid(e.later) || e.layers.None? then None
    else
      match Compile(c, e.vectorId, e.layers.value.device, e.layers.value.behavior, e.layers.value.context)
      case Err(_) => None
      case Ok(iv) => Some(iv)
  }

  function EntropyStep(c: Config, ctx: Ctx, msg: Members, e: EntropyInput): (Ctx, Result<Json, Failure>)
    requires e.Fits(c)
  {
    if ctx.phase != CHALLENGED then (ctx, Err(Protocol(ERR_STATE_INVALID)))
    else
      match CheckMsgId(ctx.seen, msg)
      case Err(e) => (ctx, Err(e))
      case Ok(seen) =>
        var marked := ctx.(seen := seen);
        match Get(msg, "body")
        case Some(Obj(body)) =>
          (match e.lookup(GetOrNull(body, "consent_receipt_id"))
           case Raised => (marked, Err(Uncaught))
           case Missing => (marked, Err(Protocol(ERR_CONSENT_MISSING)))
           case Found(consent) =>
             if !consent.IsValid(e.now) then (marked, Err(Protocol(ERR_CONSENT_MISSING)))
             else
               (match Compiled(c, consent, e)
                case None => (marked, Err(Uncaught))
                case Some(iv) =>
                  var ack := IdentityAckMessage(iv, e.msgId);
                  (marked.(phase := AWAITING_PROOF, entropy := Some(Obj(msg)), identityAck := Some(ack),
                           iv := Some(iv), subject := Some(consent.subject)),
                   Ok(ack))))
        case _ => (marked, Err(Uncaught))
  }

  // ---- PROOF -------------------------------------------------------------

  /** A context that has its four transcript messages. */
  predicate HasTranscript(ctx: Ctx) {
    ctx.hello.Some? && ctx.challenge.Some? && ctx.entropy.Some? && ctx.identityAck.Some?
  }

  function TranscriptOf(ctx: Ctx): Messages
    requires HasTranscript(ctx)
  {
    Messages(ctx.hello.value, ctx.challenge.value, ctx.entropy.value, ctx.identityAck.value)
  }

  /** `None` is the overflow error of a message that does not fit its length prefix. */
  function TranscriptHash(p: Platform, m: Messages): Option<string> {
    match TranscriptPayload(m)
    case Err(_) => None
    case Ok(payload) => Some(p.config.hash(payload))
  }

  /** What is signed is the hash of the transcript as it is laid out. */
  lemma SignedHash(p: Platform, m: Messages) returns (payload: Bytes)
    requires TranscriptHash(p, m).Some?
    ensures TranscriptHash(p, m) == Some(p.config.hash(payload))
    ensures Laid(payload, "IDP-TRANSCRIPT-v1",
                 [CanonicalJson.CanonicalJson(m.hello), CanonicalJson.CanonicalJson(m.challenge),
                  CanonicalJson.CanonicalJson(m.entropy), CanonicalJson.CanonicalJson(m.identityAck)])
  {
    payload := TranscriptPayload(m).value;
    TranscriptLayout(m);
  }

  datatype Proof = Proof(publicKey: Json, signature: Json)

  /** The body's key and signature; `None` is a missing one. */
  function ProofOf(msg: Members): Option<Proof> {
    match Get(msg, "body")
    case Some(Obj(body)) =>
      if Get(body, "public_key").None? || Get(body, "signature").None? then None
      else Some(Proof(Get(body, "public_key").value, Get(body, "signature").value))
    case _ => None
  }

  /** What a PROOF message comes with: its signals, and the id and clock reading of a new session. */
  datatype ProofInput = ProofInput(priors: seq<real>, risk: RiskContext, sessionId: string, now: int)

  /** The tables once a decision is recorded, and whether a drift it called for succeeded. */
  function Settle(c: Config, t: Tables, first: bool, subject: string, iv: IdentityVector, decision: Decision)
    : (Tables, bool)
  {
    var recorded := if first then t else t.(history := t.history + [Outcome(subject, decision != DENY)]);
    if decision != ALLOW then (recorded, true)
    else
      match Registry.Drifted(c, recorded.subjects, subject, iv, Vectors.ALPHA_DEFAULT)
      case None => (recorded, false)
      case Some(subjects) => (recorded.(subjects := subjects), true)
  }

  /**
    The trust evaluation of a verified proof: the distance before any enrolment,
    enrolment of a first vector whatever the decision, the score, the record of a
    later session, and the drift on ALLOW. The last component is false when the
    drift raised an exception.
  */
  function Evaluate(c: Config, t: Tables, subject: string, iv: IdentityVector, priors: seq<real>, risk: RiskContext)
    : (Tables, Verdict, bool)
  {
    var distance := Registry.DistanceTo(t.subjects, subject, iv);
    var first := subject !in t.subjects;
    var enrolled := if first then t.(subjects := t.subjects[subject := iv]) else t;
    var e := Evidence(distance, HistoryScore(c, LogOf(enrolled.history, subject)), ContextScore(priors),
                      RiskTotal(risk, DEFAULT_RULES));
    var verdict := Assess(c, e, risk);
    var (after, drifted) := Settle(c, enrolled, first, subject, iv, verdict.decision);
    (after, verdict, drifted)
  }

  /** The HELLO's ephemeral key, or else the key that signed. */
  function PeerKey(hello: Json, publicKey: Json): Json {
    match BodyField(hello, "client_eph_public")
    case Some(key) => if Truthy(key) then key else publicKey
    case None => publicKey
  }

  /** The peer's key is the one the HELLO names; without one, or with an empty one, it is the key that signed. */
  lemma PeerKeyExactly(msg: Members, body: Members, publicKey: Json)
    requires Get(msg, "body") == Some(Obj(body))
    ensures var named := Get(body, "client_eph_public");
      PeerKey(Obj(msg), publicKey) == if named.Some? && Truthy(named.value) then named.value else publicKey
  {
  }

  /** Key agreement and the new session; an unusable key leaves the context in TRUST_EVALUATED. */
  function Activate(p: Platform, ctx: Ctx, server: Server, publicKey: Json, hash: string, verdict: Verdict,
                    i: ProofInput): (Ctx, Server, Result<Verdict, Failure>)
    requires HasTranscript(ctx) && ctx.eph.Some?
  {
    match p.agree(ctx.eph.value, PeerKey(ctx.hello.value, publicKey))
    case None => (ctx, server, Err(Uncaught))
    case Some(shared) =>
      var s := Sessions.InitialSdna(i.sessionId, shared, hash, i.now, Sessions.ROTATION_INTERVAL_S_DEFAULT);
      (ctx.(phase := ACTIVE, session := Some(s)), server.(sessions := server.sessions.Put(s)), Ok(verdict))
  }

  /** A context that the first two messages brought to its proof. */
  predicate ReadyForProof(ctx: Ctx) {
    HasTranscript(ctx) && ctx.eph.Some? && ctx.iv.Some? && ctx.subject.Some?
  }

  function ProofStep(p: Platform, ctx: Ctx, server: Server, msg: Members, i: ProofInput)
    : (Ctx, Server, Result<Verdict, Failure>)
    requires ctx.phase == AWAITING_PROOF ==> ReadyForProof(ctx)
  {
    if ctx.phase != AWAITING_PROOF then (ctx, server, Err(Protocol(ERR_STATE_INVALID)))
    else
      match CheckMsgId(ctx.seen, msg)
      case Err(e) => (ctx, server, Err(e))
      case Ok(seen) =>
        var marked := ctx.(seen := seen);
        var proof, hash := ProofOf(msg), TranscriptHash(p, TranscriptOf(ctx));
        if proof.None? || hash.None? then (marked, server, Err(Uncaught))
        else if !p.verify(proof.value.publicKey, hash.value, proof.value.signature) then
          (marked.(phase := REJECTED), server, Err(Protocol(ERR_SIGNATURE_INVALID)))
        else
          var (tables, verdict, drifted) :=
            Evaluate(p.config, server.tables, ctx.subject.value, ctx.iv.value, i.priors, i.risk);
          var after := server.(tables := tables);
          if verdict.decision == DENY then (marked.(phase := DENIED), after, Ok(verdict))
          else
            var evaluated := marked.(phase := TRUST_EVALUATED);
            if !drifted then (evaluated, after, Err(Uncaught))
            else Activate(p, evaluated, after, proof.value.publicKey, hash.value, verdict, i)
  }

  // ---- the evaluation closes the trust loop ------------------------------

  lemma SettlingLearns(c: Config, t: Tables, s: Session, decision: Decision)
    ensures var first := s.subject !in t.subjects;
      var enrolled := if first then t.(subjects := t.subjects[s.subject := s.iv]) else t;
      var (after, drifted) := Settle(c, enrolled, first, s.subject, s.iv, decision);
      after == LearnAs(c, t, s, decision) && (drifted || decision == ALLOW)
  {
    var first := s.subject !in t.subjects;
    var baseline := if first then s.iv else t.subjects[s.subject];
    if !first {
      assert t.subjects[s.subject := baseline] == t.subjects;
    } else {
      Overwrites(t.subjects, s.subject, s.iv, LearnedAs(c, StandingOf(t, s.subject), s, decision).baseline.value);
    }
  }

  lemma Overwrites<K, V>(m: map<K, V>, key: K, v: V, v': V)
    ensures m[key := v][key := v'] == m[key := v']
  {
  }

  /** On ALLOW a known subject's baseline drifts by a tenth of the distance at most, and to nine tenths of it. */
  lemma AllowDrifts(c: Config, t: Tables, subject: string, iv: IdentityVector, d: real)
    requires c.Valid() && WellFormed(c, iv) && subject in t.subjects && WellFormed(c, t.subjects[subject])
    requires Registry.DistanceTo(t.subjects, subject, iv) == Some(d)
    ensures var (after, drifted) := Settle(c, t, false, subject, iv, ALLOW);
      && drifted && after.history == t.history + [Outcome(subject, true)]
      && after.subjects.Keys == t.subjects.Keys
      && Vectors.Distance(after.subjects[subject].vector, t.subjects[subject].vector) <= 0.1 * d
      && Vectors.Distance(after.subjects[subject].vector, iv.vector) <= 0.9 * d
  {
    Registry.DriftedMoves(c, t.subjects, subject, iv, Vectors.ALPHA_DEFAULT, d);
  }

  /** Step by step, the evaluation judges and learns exactly as the trust loop does. */
  lemma EvaluationLearns(c: Config, t: Tables, s: Session)
    ensures var (tables, verdict, drifted) := Evaluate(c, t, s.subject, s.iv, s.priors, s.risk);
      && tables == Learn(c, t, s)
      && verdict == JudgeIn(c, t, s)
      && (drifted || verdict.decision == ALLOW)
  {
    var st := StandingOf(t, s.subject);
    assert Registry.DistanceTo(t.subjects, s.subject, s.iv) == EvidenceOf(c, st, s).distance;
    SettlingLearns(c, t, s, JudgeIn(c, t, s).decision);
  }
}

/** Honest handshakes as events of a run: both ends of a new subject's first two logins are reached. */
module FirstLogins {
  import opened Prelude
  import opened Attempts
  import opened Client
  import opened Handshake
  import opened Identity
  import opened Json
  import opened Scoring
  import opened Storage
  import opened TrustLoop
  import opened World

  /** What an honest client needs of its key, its messages and the consent. */
  ghost predicate Able(p: Platform, key: SigningKey, h: Honest) {
    p.config.Valid() && Signs(p, key) && h.Sound(p.config) && h.Sendable(p.config) && h.ephPublic != ""
  }

  function ProofMessage(p: Platform, key: SigningKey, h: Honest): Members
    requires h.Sound(p.config) && h.Sendable(p.config)
  {
    BuildProof(p, key, h.ids.2, TranscriptOf(h.Ack(p.config).0)).value
  }

  /** The new handshake and the client's first two messages. */
  function Opening(hid: string, h: Honest): seq<Event> {
    [Open(hid), Hello(hid, h.Hello(), h.randoms), Entropy(hid, h.Entropy(), h.e)]
  }

  /** And its proof. */
  function Login(p: Platform, key: SigningKey, hid: string, h: Honest): seq<Event>
    requires h.Sound(p.config) && h.Sendable(p.config)
  {
    Opening(hid, h) + [Event.Proof(hid, ProofMessage(p, key, h), h.i)]
  }

  /** The handshake, the session id and the clock reading are new in `w`. */
  predicate NewIn(w: World, hid: string, h: Honest) {
    hid !in w.attempts && h.i.sessionId !in w.ledger.lives && w.ledger.clock <= h.i.now
  }

  predicate OthersKept(w: World, w': World, hid: string) {
    && w'.attempts.Keys == w.attempts.Keys + {hid}
    && forall h | h in w.attempts && h != hid :: w'.attempts[h] == w.attempts[h]
  }

  /** From `w` to `w'` one handshake has come to `ctx`, and nothing else has moved. */
  ghost predicate Within(w: World, w': World, hid: string, ctx: Ctx) {
    && hid in w'.live && hid in w'.attempts && w'.attempts[hid].ctx == ctx
    && OthersKept(w, w', hid) && w'.tables == w.tables && w'.ledger == w.ledger
  }

  lemma OneMore(p: Platform, events: seq<Event>, w: World, ev: Event)
    requires p.config.Valid() && Reached(p, events, w) && Possible(p, w, ev)
    ensures Reached(p, events + [ev], Step(p, w, ev))
  {
    assert (events + [ev])[..|events|] == events;
  }

  lemma Opened(p: Platform, w: World, hid: string)
    requires hid !in w.attempts
    ensures Possible(p, w, Open(hid)) && Within(w, Step(p, w, Open(hid)), hid, FRESH)
  {
  }

  lemma HelloWithin(p: Platform, w: World, w': World, hid: string, h: Honest)
    requires h.Sound(p.config) && Within(w, w', hid, FRESH)
    ensures Possible(p, w', Hello(hid, h.Hello(), h.randoms))
    ensures Within(w, Step(p, w', Hello(hid, h.Hello(), h.randoms)), hid, h.Challenge().0)
  {
  }

  lemma EntropyWithin(p: Platform, w: World, w': World, hid: string, h: Honest)
    requires h.Sound(p.config) && Within(w, w', hid, h.Challenge().0)
    ensures Possible(p, w', Entropy(hid, h.Entropy(), h.e))
    ensures Within(w, Step(p, w', Entropy(hid, h.Entropy(), h.e)), hid, h.Ack(p.config).0)
  {
  }

  /** A proof has brought its handshake to `ctx` and the shared state to `server`. */
  ghost predicate Left(w: World, hid: string, ctx: Ctx, server: Server, i: ProofInput, w': World) {
    && OthersKept(w, w', hid) && w'.attempts[hid].ctx == ctx
    && w'.tables == server.tables && w'.ledger.store == server.sessions
    && w'.ledger.lives.Keys <= w.ledger.lives.Keys + {i.sessionId}
    && (w'.ledger.clock == w.ledger.clock || w'.ledger.clock == i.now)
  }

  /** A login ends as the honest handshake does. */
  ghost predicate Ends(p: Platform, key: SigningKey, w: World, hid: string, h: Honest, w': World)
    requires h.Sound(p.config) && h.Sendable(p.config)
  {
    var (ctx, server, _) := h.Proven(p, key, Server(w.tables, w.ledger.store));
    Left(w, hid, ctx, server, h.i, w')
  }

  lemma AbsorbedEnd(w: World, hid: string, a': Attempt, server: Server, i: ProofInput)
    requires hid in w.attempts && (a'.ctx.session.Some? ==> a'.ctx.session.value.id == i.sessionId)
    ensures var w' := Absorbed(w, hid, a', server, i);
      && w'.attempts == w.attempts[hid := a']
      && w'.tables == server.tables && w'.ledger.store == server.sessions
      && w'.ledger.lives.Keys <= w.ledger.lives.Keys + {i.sessionId}
      && (w'.ledger.clock == w.ledger.clock || w'.ledger.clock == i.now)
  {
  }

  /** A session that a proof brings has the id that was drawn for it. */
  lemma SessionId(p: Platform, ctx: Ctx, server: Server, msg: Members, i: ProofInput)
    requires ReadyForProof(ctx) && ctx.session.None?
    ensures var session := ProofStep(p, ctx, server, msg, i).0.session;
      session.Some? ==> session.value.id == i.sessionId
  {
  }

  lemma ProofPossible(p: Platform, w: World, w': World, hid: string, msg: Members, h: Honest)
    requires h.Sound(p.config) && NewIn(w, hid, h) && Within(w, w', hid, h.Ack(p.config).0)
    ensures Possible(p, w', Event.Proof(hid, msg, h.i))
  {
    HonestContext(p.config, h);
  }

  /** What a proof leaves of the world, whatever becomes of it. */
  lemma ProofLeaves(p: Platform, w: World, hid: string, msg: Members, i: ProofInput)
    requires hid in w.attempts && Prepared(w.attempts[hid])
    requires ReadyForProof(w.attempts[hid].ctx) && w.attempts[hid].ctx.session.None?
    ensures var (ctx, server, _) := ProofStep(p, w.attempts[hid].ctx, Server(w.tables, w.ledger.store), msg, i);
      Left(w, hid, ctx, server, i, AfterProof(p, w, hid, msg, i))
  {
    var a, server := w.attempts[hid], Server(w.tables, w.ledger.store);
    SessionId(p, a.ctx, server, msg, i);
    AbsorbedEnd(w, hid, OnProof(p, a, server, msg, i), ProofStep(p, a.ctx, server, msg, i).1, i);
  }

  lemma AckIsReady(c: Config, h: Honest)
    requires h.Sound(c)
    ensures ReadyForProof(h.Ack(c).0) && h.Ack(c).0.session.None?
  {
    HonestContext(c, h);
    HonestHello(FRESH, h.ids.0, h.nonce, h.ephPublic, h.randoms);
    HonestEntropy(c, h.Challenge().0, h.ids.1, h.deviceHash, h.behavior, h.context, h.consentId, h.e);
  }

  lemma ProofEnds(p: Platform, key: SigningKey, w: World, w': World, hid: string, h: Honest)
    requires Able(p, key, h) && NewIn(w, hid, h) && Within(w, w', hid, h.Ack(p.config).0)
    requires Prepared(w'.attempts[hid])
    ensures Ends(p, key, w, hid, h, AfterProof(p, w', hid, ProofMessage(p, key, h), h.i))
  {
    AckIsReady(p.config, h);
    ProofLeaves(p, w', hid, ProofMessage(p, key, h), h.i);
  }

  lemma OpeningRuns(p: Platform, events: seq<Event>, w: World, hid: string, h: Honest) returns (w': World)
    requires p.config.Valid() && h.Sound(p.config) && Reached(p, events, w) && hid !in w.attempts
    ensures Reached(p, events + Opening(hid, h), w') && Within(w, w', hid, h.Ack(p.config).0)
  {
    var opening := Opening(hid, h);
    Opened(p, w, hid);
    OneMore(p, events, w, opening[0]);
    var begun := Step(p, w, opening[0]);
    HelloWithin(p, w, begun, hid, h);
    OneMore(p, events + [opening[0]], begun, opening[1]);
    var challenged := Step(p, begun, opening[1]);
    EntropyWithin(p, w, challenged, hid, h);
    OneMore(p, events + [opening[0]] + [opening[1]], challenged, opening[2]);
    w' := Step(p, challenged, opening[2]);
    Joined(events, opening);
  }

  lemma Joined(events: seq<Event>, opening: seq<Event>)
    requires |opening| == 3
    ensures events + [opening[0]] + [opening[1]] + [opening[2]] == events + opening
  {
  }

  lemma JoinedLast(events: seq<Event>, opening: seq<Event>, last: Event)
    ensures events + opening + [last] == events + (opening + [last])
  {
  }

  /** A login can follow any run that holds none of its ids, and ends as the honest handshake does. */
  lemma LoginRuns(p: Platform, key: SigningKey, events: seq<Event>, w: World, hid: string, h: Honest)
    returns (w': World)
    requires Able(p, key, h) && Reached(p, events, w) && NewIn(w, hid, h)
    ensures Reached(p, events + Login(p, key, hid, h), w') && Ends(p, key, w, hid, h, w')
  {
    var ready := OpeningRuns(p, events, w, hid, h);
    var last := Event.Proof(hid, ProofMessage(p, key, h), h.i);
    ProofPossible(p, w, ready, hid, ProofMessage(p, key, h), h);
    OneMore(p, events + Opening(hid, h), ready, last);
    ProofEnds(p, key, w, ready, hid, h);
    w' := Step(p, ready, last);
    JoinedLast(events, Opening(hid, h), last);
  }

  // ---- two logins --------------------------------------------------------

  /** What a subject's first recorded session makes of it, if it presents the baseline's vector. */
  lemma SecondLocks(c: Config, st: Standing, s: Session)
    requires c.Valid() && c.k > 0 && WellFormed(c, s.iv) && StandingInv(c, st)
    requires st.baseline.Some? && st.baseline.value.vector == s.iv.vector && st.past == []
    ensures Locked(c, Learned(c, st, s)) <==> !Passes(c, s)
  {
    SecondSession(c, st, s);
    LearnedExactly(c, st, s);
    ContextProductBounds(s.priors);
    DefaultRulesAreHarmless(s.risk);
    ConfidenceRange(N_EFF, c.fade);
    UniformHistory(c, Learned(c, st, s).past, Passes(c, s));
  }

  /** The subject's standing after an honest first handshake and an honest second one. */
  lemma BothLearned(p: Platform, key: SigningKey, h: Honest, h': Honest, server: Server)
    requires Able(p, key, h) && Able(p, key, h') && p.config.k > 0
    requires var s, s' := h.Judged(p.config), h'.Judged(p.config);
      && s'.subject == s.subject && s'.iv.vector == s.iv.vector
      && StandingOf(server.tables, s.subject) == Standing(None, [])
    ensures var server' := h'.Proven(p, key, h.Proven(p, key, server).1).1;
      Locked(p.config, StandingOf(server'.tables, h.Judged(p.config).subject)) <==>
        !Passes(p.config, h'.Judged(p.config))
  {
    var c, s, s' := p.config, h.Judged(p.config), h'.Judged(p.config);
    var server' := h.Proven(p, key, server).1;
    HonestVector(c, h);
    HonestVector(c, h');
    HonestRun(p, key, h, server);
    HonestRun(p, key, h', server');
    LearnedExactly(c, Standing(None, []), s);
    LearnIsLocal(c, server.tables, s, s.subject);
    LearnIsLocal(c, server'.tables, s', s.subject);
    SecondLocks(c, Standing(Some(s.iv), []), s');
  }

  /** The handshakes and sessions of two logins are different ones, and the second reads the clock no earlier. */
  predicate InTurn(hid: string, h: Honest, hid': string, h': Honest) {
    hid != hid' && h.i.sessionId != h'.i.sessionId && h.i.now <= h'.i.now
  }

  /** How a new subject's two honest logins end. */
  ghost predicate EndsOfTwo(p: Platform, h: Honest, h': Honest, hid: string, hid': string, w: World)
    requires h.Sound(p.config) && h.Sendable(p.config) && h'.Sound(p.config) && h'.Sendable(p.config)
  {
    var passes := Passes(p.config, h'.Judged(p.config));
    && hid in w.attempts && hid' in w.attempts && w.attempts[hid].ctx.phase == DENIED
    && (w.attempts[hid'].ctx.phase == ACTIVE <==> passes && p.agree(h'.randoms.ephPublic, Str(h'.ephPublic)).Some?)
    && (w.attempts[hid'].ctx.phase == DENIED <==> !passes)
    && (p.config.k > 0 ==> (Locked(p.config, StandingOf(w.tables, h.Judged(p.config).subject)) <==> !passes))
  }

  lemma BothEnd(p: Platform, key: SigningKey, w: World, hid: string, h: Honest, between: World, hid': string,
                h': Honest, w': World)
    requires Able(p, key, h) && Able(p, key, h') && hid != hid'
    requires Ends(p, key, w, hid, h, between) && Ends(p, key, between, hid', h', w')
    requires var s, s' := h.Judged(p.config), h'.Judged(p.config);
      && s'.subject == s.subject && s'.iv.vector == s.iv.vector
      && StandingOf(w.tables, s.subject) == Standing(None, [])
    ensures EndsOfTwo(p, h, h', hid, hid', w')
  {
    var server := Server(w.tables, w.ledger.store);
    NewSubject(p, key, h, h', server);
    if p.config.k > 0 {
      BothLearned(p, key, h, h', server);
    }
  }

  lemma StillNew(p: Platform, key: SigningKey, w: World, hid: string, h: Honest, between: World, hid': string,
                 h': Honest)
    requires h.Sound(p.config) && h.Sendable(p.config) && Ends(p, key, w, hid, h, between)
    requires NewIn(w, hid', h') && InTurn(hid, h, hid', h')
    ensures NewIn(between, hid', h')
  {
  }

  /**
    After any run, a subject that is not enrolled may log in honestly twice, with
    one vector: the first handshake ends DENIED; the second ends ACTIVE exactly when
    its own signals pass and key agreement succeeds, and DENIED, with the subject
    locked, exactly when they do not pass.
  */
  lemma TwoLogins(p: Platform, key: SigningKey, events: seq<Event>, w: World, hid: string, h: Honest,
                  hid': string, h': Honest) returns (w': World)
    requires Able(p, key, h) && Able(p, key, h') && Reached(p, events, w)
    requires NewIn(w, hid, h) && NewIn(w, hid', h') && InTurn(hid, h, hid', h')
    requires var s, s' := h.Judged(p.config), h'.Judged(p.config);
      && s'.subject == s.subject && s'.iv.vector == s.iv.vector
      && StandingOf(w.tables, s.subject) == Standing(None, [])
    ensures Reached(p, events + Login(p, key, hid, h) + Login(p, key, hid', h'), w')
    ensures EndsOfTwo(p, h, h', hid, hid', w')
  {
    var between := LoginRuns(p, key, events, w, hid, h);
    StillNew(p, key, w, hid, h, between, hid', h');
    w' := LoginRuns(p, key, events + Login(p, key, hid, h), between, hid', h');
    BothEnd(p, key, w, hid, h, between, hid', h', w');
  }

  lemma NewAtStart(hid: string, h: Honest)
    requires 0 <= h.i.now
    ensures NewIn(START, hid, h)
    ensures forall subject :: StandingOf(START.tables, subject) == Standing(None, [])
  {
  }

  lemma FromNothing(events: seq<Event>)
    ensures [] + events == events
  {
  }

  /** From an empty store on, both an ACTIVE handshake and a locked subject are reached. */
  lemma BothEndsAreReached(p: Platform, key: SigningKey, hid: string, h: Honest, hid': string, h': Honest)
    requires Able(p, key, h) && Able(p, key, h') && InTurn(hid, h, hid', h') && 0 <= h.i.now
    requires var s, s' := h.Judged(p.config), h'.Judged(p.config);
      s'.subject == s.subject && s'.iv.vector == s.iv.vector
    ensures var r := Run(p, Login(p, key, hid, h) + Login(p, key, hid', h'));
      r.Some? && EndsOfTwo(p, h, h', hid, hid', r.value)
  {
    NewAtStart(hid, h);
    NewAtStart(hid', h');
    assert Reached(p, [], START);
    var w := TwoLogins(p, key, [], START, hid, h, hid', h');
    FromNothing(Login(p, key, hid, h));
  }
}

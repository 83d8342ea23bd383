/**
  Whole runs: many handshakes of many subjects interleave over one store and one
  session store, sessions are renewed and revoked, and the process restarts.
*/
module World {
  import opened Prelude
  import opened Attempts
  import opened Handshake
  import opened Identity
  import opened Scoring
  import opened Storage
  import opened TrustLoop
  import Sessions

  /**
    The tables, the session ledger, every handshake ever opened and which of them
    the running process still holds; and what the run is judged by: the sessions
    that were trust-evaluated with the handshake of each, in order, and the
    handshake that every session id was issued in.
  */
  datatype World = World(
    tables: Tables,
    ledger: Sessions.Ledger,
    attempts: map<string, Attempt>,
    live: set<string>,
    audit: seq<Session>,
    judged: seq<string>,
    issuer: map<string, string>)

  const START := World(EMPTY, Sessions.Ledger(Sessions.EMPTY, 0, map[]), map[], {}, [], [], map[])

  datatype Event =
    | Open(hid: string)
    | Hello(hid: string, msg: Members, randoms: HelloRandoms)
    | Entropy(hid: string, msg: Members, e: EntropyInput)
    | Proof(hid: string, msg: Members, i: ProofInput)
    | SessionEvent(s: Sessions.Event)
    | Restart(now: int)

  /** Fresh ids, clocks that do not run backwards, and messages to handshakes the process holds. */
  predicate Possible(p: Platform, w: World, ev: Event) {
    match ev
    case Open(hid) => hid !in w.attempts
    case Hello(hid, _, _) => hid in w.live && hid in w.attempts
    case Entropy(hid, _, e) => hid in w.live && hid in w.attempts && e.Fits(p.config)
    case Proof(hid, _, i) =>
      hid in w.live && hid in w.attempts && Prepared(w.attempts[hid]) &&
      i.sessionId !in w.ledger.lives && w.ledger.clock <= i.now
    case SessionEvent(s) => (s.Renewal? || s.Revocation?) && Sessions.Possible(w.ledger, s)
    case Restart(now) => w.ledger.clock <= now
  }

  /** True of every reachable handshake: see `AttemptInv`. */
  predicate Prepared(a: Attempt) {
    a.ctx.phase == AWAITING_PROOF ==> ReadyForProof(a.ctx)
  }

  /**
    The world once a PROOF has turned a handshake into `a'` and the shared state
    into `server`. A PROOF that made its handshake an evaluated one is audited.
  */
  function Absorbed(w: World, hid: string, a': Attempt, server: Server, i: ProofInput): World
    requires hid in w.attempts
  {
    var ctx := w.attempts[hid].ctx;
    var next := w.(tables := server.tables, ledger := w.ledger.(store := server.sessions),
                   attempts := w.attempts[hid := a']);
    if Evaluated(a'.ctx.phase) == Evaluated(ctx.phase) || ctx.subject.None? || ctx.iv.None? then next
    else
      var audited := next.(audit := w.audit + [SessionOf(ctx, i)], judged := w.judged + [hid]);
      if a'.ctx.session.None? then audited
      else
        var s := a'.ctx.session.value;
        audited.(issuer := w.issuer[s.id := hid], ledger := Issued(next.ledger, s, i.now))
  }

  /** The ledger that has taken note of a session already in its store. */
  function Issued(l: Sessions.Ledger, s: Sessions.SessionDna, now: int): Sessions.Ledger {
    Sessions.Ledger(l.store, now, l.lives[s.id := Sessions.Newborn(s, now)])
  }

  /** The ledger that stores a session and takes note of it. */
  function IssuedTo(l: Sessions.Ledger, s: Sessions.SessionDna, now: int): Sessions.Ledger {
    Issued(l.(store := l.store.Put(s)), s, now)
  }

  function AfterProof(p: Platform, w: World, hid: string, msg: Members, i: ProofInput): World
    requires hid in w.attempts && Prepared(w.attempts[hid])
  {
    var a, server := w.attempts[hid], Server(w.tables, w.ledger.store);
    Absorbed(w, hid, OnProof(p, a, server, msg, i), ProofStep(p, a.ctx, server, msg, i).1, i)
  }

  function Step(p: Platform, w: World, ev: Event): World
    requires Possible(p, w, ev)
  {
    match ev
    case Open(hid) => w.(attempts := w.attempts[hid := Attempt(FRESH, [])], live := w.live + {hid})
    case Hello(hid, msg, r) => w.(attempts := w.attempts[hid := OnHello(w.attempts[hid], msg, r)])
    case Entropy(hid, msg, e) => w.(attempts := w.attempts[hid := OnEntropy(p.config, w.attempts[hid], msg, e)])
    case Proof(hid, msg, i) => AfterProof(p, w, hid, msg, i)
    case SessionEvent(s) => w.(ledger := Sessions.Step(w.ledger, s))
    case Restart(now) => w.(live := {}, ledger := Sessions.Step(w.ledger, Sessions.Restart(now)))
  }

  // ---- invariants --------------------------------------------------------

  ghost predicate AttemptsInv(p: Platform, attempts: map<string, Attempt>) {
    forall h | h in attempts :: AttemptInv(p, attempts[h])
  }

  /** The tables are what the audited sessions left behind. */
  ghost predicate TablesInv(c: Config, tables: Tables, audit: seq<Session>) {
    WellFormedRun(c, audit) && tables == After(c, EMPTY, audit)
  }

  predicate Distinct(s: seq<string>) {
    forall n, m | 0 <= n < m < |s| :: s[n] != s[m]
  }

  /** The audited sessions and the handshakes that were trust-evaluated correspond one to one. */
  ghost predicate JudgedInv(attempts: map<string, Attempt>, audit: seq<Session>, judged: seq<string>) {
    && |judged| == |audit|
    && Distinct(judged)
    && (forall n | 0 <= n < |judged| ::
         judged[n] in attempts && Evaluated(attempts[judged[n]].ctx.phase) &&
         attempts[judged[n]].ctx.subject == Some(audit[n].subject) && attempts[judged[n]].ctx.iv == Some(audit[n].iv))
    && (forall h | h in attempts && Evaluated(attempts[h].ctx.phase) :: h in judged)
  }

  /** The session ids ever issued and the handshakes that became ACTIVE correspond one to one. */
  ghost predicate IssuerInv(attempts: map<string, Attempt>, lives: map<string, Sessions.Life>,
                            issuer: map<string, string>) {
    && issuer.Keys == lives.Keys
    && (forall id | id in issuer ::
         issuer[id] in attempts && attempts[issuer[id]].ctx.session.Some? &&
         attempts[issuer[id]].ctx.session.value.id == id)
    && (forall h | h in attempts && attempts[h].ctx.session.Some? ::
         attempts[h].ctx.session.value.id in issuer && issuer[attempts[h].ctx.session.value.id] == h)
  }

  /** A session went only to a subject that an earlier handshake had enrolled. */
  ghost predicate EnrolledInv(attempts: map<string, Attempt>, audit: seq<Session>) {
    forall h | h in attempts && attempts[h].ctx.session.Some? ::
      attempts[h].ctx.subject.Some? && |Of(audit, attempts[h].ctx.subject.value)| >= 2
  }

  ghost predicate WorldInv(p: Platform, w: World) {
    && w.live <= w.attempts.Keys
    && AttemptsInv(p, w.attempts)
    && TablesInv(p.config, w.tables, w.audit)
    && JudgedInv(w.attempts, w.audit, w.judged)
    && IssuerInv(w.attempts, w.ledger.lives, w.issuer)
    && EnrolledInv(w.attempts, w.audit)
    && Sessions.LedgerInv(w.ledger)
  }

  lemma StartKeepsInv(p: Platform)
    requires p.config.Valid()
    ensures WorldInv(p, START)
  {
  }

  // ---- one event at a time -----------------------------------------------

  lemma AttemptsChange(p: Platform, attempts: map<string, Attempt>, hid: string, a': Attempt)
    requires AttemptsInv(p, attempts) && AttemptInv(p, a')
    ensures AttemptsInv(p, attempts[hid := a'])
  {
  }

  /** An attempt that is replaced without being evaluated or given a session. */
  predicate Quiet(attempts: map<string, Attempt>, hid: string, a': Attempt) {
    if hid in attempts then
      var a := attempts[hid];
      && Evaluated(a'.ctx.phase) == Evaluated(a.ctx.phase)
      && (Evaluated(a'.ctx.phase) ==> a'.ctx.subject == a.ctx.subject && a'.ctx.iv == a.ctx.iv)
      && a'.ctx.session == a.ctx.session
      && (a'.ctx.session.Some? ==> a'.ctx.subject == a.ctx.subject)
    else !Evaluated(a'.ctx.phase) && a'.ctx.session.None?
  }

  lemma JudgedKept(attempts: map<string, Attempt>, audit: seq<Session>, judged: seq<string>, hid: string, a': Attempt)
    requires JudgedInv(attempts, audit, judged) && Quiet(attempts, hid, a')
    ensures JudgedInv(attempts[hid := a'], audit, judged)
  {
    var attempts' := attempts[hid := a'];
    forall h | h in attempts' && Evaluated(attempts'[h].ctx.phase) ensures h in judged {
      assert h in attempts && Evaluated(attempts[h].ctx.phase);
    }
  }

  lemma IssuerKept(attempts: map<string, Attempt>, lives: map<string, Sessions.Life>, issuer: map<string, string>,
                   hid: string, a': Attempt)
    requires IssuerInv(attempts, lives, issuer)
    requires if hid in attempts then a'.ctx.session == attempts[hid].ctx.session else a'.ctx.session.None?
    ensures IssuerInv(attempts[hid := a'], lives, issuer)
  {
  }

  lemma EnrolledKept(attempts: map<string, Attempt>, audit: seq<Session>, hid: string, a': Attempt)
    requires EnrolledInv(attempts, audit) && Quiet(attempts, hid, a')
    ensures EnrolledInv(attempts[hid := a'], audit)
  {
  }

  /** A message that neither evaluates its handshake nor gives it a session. */
  lemma QuietMessage(p: Platform, w: World, hid: string, a': Attempt)
    requires WorldInv(p, w) && AttemptInv(p, a') && Quiet(w.attempts, hid, a')
    ensures WorldInv(p, w.(attempts := w.attempts[hid := a']))
  {
    AttemptsChange(p, w.attempts, hid, a');
    JudgedKept(w.attempts, w.audit, w.judged, hid, a');
    IssuerKept(w.attempts, w.ledger.lives, w.issuer, hid, a');
    EnrolledKept(w.attempts, w.audit, hid, a');
  }

  lemma OpenKeepsInv(p: Platform, w: World, hid: string)
    requires WorldInv(p, w) && hid !in w.attempts
    ensures WorldInv(p, w.(attempts := w.attempts[hid := Attempt(FRESH, [])], live := w.live + {hid}))
  {
    QuietMessage(p, w, hid, Attempt(FRESH, []));
  }

  /** A proof that stands adds its session to the audit and its learning to the tables. */
  lemma AuditGrows(c: Config, tables: Tables, audit: seq<Session>, s: Session)
    requires TablesInv(c, tables, audit) && WellFormed(c, s.iv)
    ensures TablesInv(c, Learn(c, tables, s), audit + [s])
  {
    assert (audit + [s])[..|audit|] == audit;
  }

  lemma JudgedGrows(attempts: map<string, Attempt>, audit: seq<Session>, judged: seq<string>, hid: string,
                    a': Attempt, s: Session)
    requires JudgedInv(attempts, audit, judged) && hid in attempts && !Evaluated(attempts[hid].ctx.phase)
    requires Evaluated(a'.ctx.phase) && a'.ctx.subject == Some(s.subject) && a'.ctx.iv == Some(s.iv)
    ensures JudgedInv(attempts[hid := a'], audit + [s], judged + [hid])
  {
    var attempts' := attempts[hid := a'];
    assert hid !in judged;
    forall h | h in attempts' && Evaluated(attempts'[h].ctx.phase) ensures h in judged + [hid] {
      if h != hid {
        assert h in judged;
      }
    }
  }

  /** An accepted session is never its subject's first. */
  lemma AcceptedWasEnrolled(c: Config, tables: Tables, audit: seq<Session>, s: Session)
    requires c.Valid() && TablesInv(c, tables, audit) && WellFormed(c, s.iv)
    requires JudgeIn(c, tables, s).decision != DENY
    ensures s.subject in tables.subjects && |Of(audit + [s], s.subject)| >= 2
  {
    AfterKeepsInv(c, EMPTY, audit);
    assert StandingInv(c, StandingOf(tables, s.subject));
    Plateau(c, StandingOf(tables, s.subject), s);
    Conservation(c, audit, s.subject);
    OfAppended(audit + [s], s.subject);
    assert (audit + [s])[..|audit|] == audit;
  }

  lemma EnrolledGrows(attempts: map<string, Attempt>, audit: seq<Session>, hid: string, a': Attempt, s: Session)
    requires EnrolledInv(attempts, audit)
    requires a'.ctx.session.Some? ==> a'.ctx.subject == Some(s.subject) && |Of(audit + [s], s.subject)| >= 2
    ensures EnrolledInv(attempts[hid := a'], audit + [s])
  {
    assert (audit + [s])[..|audit|] == audit;
    forall h | h in attempts && attempts[h].ctx.session.Some?
      ensures |Of(audit + [s], attempts[h].ctx.subject.value)| >= 2
    {
      OfAppended(audit + [s], attempts[h].ctx.subject.value);
    }
  }

  lemma IssuerGrows(attempts: map<string, Attempt>, lives: map<string, Sessions.Life>, issuer: map<string, string>,
                    hid: string, a': Attempt, life: Sessions.Life)
    requires IssuerInv(attempts, lives, issuer) && hid in attempts && attempts[hid].ctx.session.None?
    requires a'.ctx.session.Some? && a'.ctx.session.value.id !in lives
    ensures var id := a'.ctx.session.value.id;
      IssuerInv(attempts[hid := a'], lives[id := life], issuer[id := hid])
  {
    var id := a'.ctx.session.value.id;
    var attempts', issuer' := attempts[hid := a'], issuer[id := hid];
    forall x | x in issuer'
      ensures issuer'[x] in attempts' && attempts'[issuer'[x]].ctx.session.Some?
      ensures attempts'[issuer'[x]].ctx.session.value.id == x
    {
      if x != id {
        assert issuer[x] != hid;
      }
    }
  }

  /** A handshake that a proof made an evaluated one, with or without a session. */
  predicate Stood(w: World, hid: string, a': Attempt, server: Server) {
    && hid in w.attempts
    && server.sessions == (if a'.ctx.session.Some? then w.ledger.store.Put(a'.ctx.session.value) else w.ledger.store)
    && var ctx := w.attempts[hid].ctx;
      && ctx.subject.Some? && ctx.iv.Some? && ctx.session.None? && SameButProgress(ctx, a'.ctx)
      && !Evaluated(ctx.phase) && Evaluated(a'.ctx.phase)
      && (a'.ctx.session.Some? ==> a'.ctx.session.value.id !in w.ledger.lives)
  }

  lemma StoodJudged(w: World, hid: string, a': Attempt, server: Server, i: ProofInput)
    requires Stood(w, hid, a', server) && JudgedInv(w.attempts, w.audit, w.judged)
    ensures var w' := Absorbed(w, hid, a', server, i);
      w'.tables == server.tables && w'.audit == w.audit + [SessionOf(w.attempts[hid].ctx, i)] &&
      JudgedInv(w'.attempts, w'.audit, w'.judged)
  {
    JudgedGrows(w.attempts, w.audit, w.judged, hid, a', SessionOf(w.attempts[hid].ctx, i));
  }

  lemma StoodIssue(w: World, hid: string, a': Attempt, server: Server, i: ProofInput)
    requires Stood(w, hid, a', server)
    requires IssuerInv(w.attempts, w.ledger.lives, w.issuer) && Sessions.LedgerInv(w.ledger)
    requires a'.ctx.session.Some? ==> Sessions.LedgerInv(IssuedTo(w.ledger, a'.ctx.session.value, i.now))
    ensures var w' := Absorbed(w, hid, a', server, i);
      IssuerInv(w'.attempts, w'.ledger.lives, w'.issuer) && Sessions.LedgerInv(w'.ledger)
  {
    if a'.ctx.session.Some? {
      IssuerGrows(w.attempts, w.ledger.lives, w.issuer, hid, a', Sessions.Newborn(a'.ctx.session.value, i.now));
    } else {
      IssuerKept(w.attempts, w.ledger.lives, w.issuer, hid, a');
    }
  }

  lemma StoodKeepsInv(p: Platform, w: World, hid: string, a': Attempt, server: Server, i: ProofInput, s: Session)
    requires WorldInv(p, w) && Stood(w, hid, a', server) && AttemptInv(p, a') && s == SessionOf(w.attempts[hid].ctx, i)
    requires TablesInv(p.config, server.tables, w.audit + [s])
    requires a'.ctx.session.Some? ==>
      Sessions.LedgerInv(IssuedTo(w.ledger, a'.ctx.session.value, i.now)) && |Of(w.audit + [s], s.subject)| >= 2
    ensures WorldInv(p, Absorbed(w, hid, a', server, i))
  {
    StoodJudged(w, hid, a', server, i);
    StoodIssue(w, hid, a', server, i);
    EnrolledGrows(w.attempts, w.audit, hid, a', s);
    AttemptsChange(p, w.attempts, hid, a');
  }

  /** What a standing proof leaves of its handshake and the session store. */
  lemma StandingAttempt(p: Platform, w: World, hid: string, msg: Members, i: ProofInput)
    requires Possible(p, w, Event.Proof(hid, msg, i)) && AttemptInv(p, w.attempts[hid])
    requires ProofStands(p, w.attempts[hid].ctx, msg)
    ensures var a, server := w.attempts[hid], Server(w.tables, w.ledger.store);
      var a', server' := OnProof(p, a, server, msg, i), ProofStep(p, a.ctx, server, msg, i).1;
      Stood(w, hid, a', server') && AttemptInv(p, a')
  {
    var a, server := w.attempts[hid], Server(w.tables, w.ledger.store);
    ProofJudged(p, a.ctx, server, msg, i);
    ProofKeepsInv(p, a, server, msg, i);
  }

  /** What a standing proof leaves of the tables. */
  lemma StandingTables(p: Platform, w: World, hid: string, msg: Members, i: ProofInput)
    requires TablesInv(p.config, w.tables, w.audit) && Possible(p, w, Event.Proof(hid, msg, i))
    requires ProofStands(p, w.attempts[hid].ctx, msg) && WellFormed(p.config, w.attempts[hid].ctx.iv.value)
    ensures var a := w.attempts[hid];
      var server' := ProofStep(p, a.ctx, Server(w.tables, w.ledger.store), msg, i).1;
      TablesInv(p.config, server'.tables, w.audit + [SessionOf(a.ctx, i)])
  {
    var a := w.attempts[hid];
    ProofJudged(p, a.ctx, Server(w.tables, w.ledger.store), msg, i);
    AuditGrows(p.config, w.tables, w.audit, SessionOf(a.ctx, i));
  }

  predicate NewlyIssued(s: Sessions.SessionDna, now: int) {
    s.sdna.Initial? && s.generation == 0 && s.issuedAt == now && s.expiresAt == now + s.interval
  }

  /** A session that a standing proof earns goes to an enrolled subject, under the new id. */
  lemma StandingSession(p: Platform, w: World, hid: string, msg: Members, i: ProofInput)
    requires p.config.Valid() && TablesInv(p.config, w.tables, w.audit) && Possible(p, w, Event.Proof(hid, msg, i))
    requires ProofStands(p, w.attempts[hid].ctx, msg) && WellFormed(p.config, w.attempts[hid].ctx.iv.value)
    requires w.attempts[hid].ctx.session.None?
    ensures var a := w.attempts[hid];
      var a', s := OnProof(p, a, Server(w.tables, w.ledger.store), msg, i), SessionOf(a.ctx, i);
      a'.ctx.session.Some? ==>
        && |Of(w.audit + [s], s.subject)| >= 2
        && a'.ctx.session.value.id == i.sessionId && NewlyIssued(a'.ctx.session.value, i.now)
  {
    var a, server := w.attempts[hid], Server(w.tables, w.ledger.store);
    ProofJudged(p, a.ctx, server, msg, i);
    if OnProof(p, a, server, msg, i).ctx.session.Some? {
      AcceptedWasEnrolled(p.config, w.tables, w.audit, SessionOf(a.ctx, i));
    }
  }

  lemma IssuedKeepsLedger(l: Sessions.Ledger, s: Sessions.SessionDna, now: int)
    requires Sessions.LedgerInv(l) && s.id !in l.lives && l.clock <= now && NewlyIssued(s, now)
    ensures Sessions.LedgerInv(IssuedTo(l, s, now))
  {
    Sessions.StepKeepsInv(l, Sessions.Issue(s.id, s.sdna.shared, s.sdna.transcriptHash, now, s.interval));
  }

  lemma StandingProof(p: Platform, w: World, hid: string, msg: Members, i: ProofInput)
    requires p.config.Valid() && WorldInv(p, w) && Possible(p, w, Event.Proof(hid, msg, i))
    requires ProofStands(p, w.attempts[hid].ctx, msg)
    ensures WorldInv(p, AfterProof(p, w, hid, msg, i))
  {
    var a, server := w.attempts[hid], Server(w.tables, w.ledger.store);
    var a' := OnProof(p, a, server, msg, i);
    assert AttemptInv(p, a);
    StandingAttempt(p, w, hid, msg, i);
    StandingTables(p, w, hid, msg, i);
    StandingSession(p, w, hid, msg, i);
    if a'.ctx.session.Some? {
      IssuedKeepsLedger(w.ledger, a'.ctx.session.value, i.now);
    }
    StoodKeepsInv(p, w, hid, a', ProofStep(p, a.ctx, server, msg, i).1, i, SessionOf(a.ctx, i));
  }

  lemma RefusedProof(p: Platform, w: World, hid: string, msg: Members, i: ProofInput)
    requires p.config.Valid() && WorldInv(p, w) && Possible(p, w, Event.Proof(hid, msg, i))
    requires !ProofStands(p, w.attempts[hid].ctx, msg)
    ensures WorldInv(p, AfterProof(p, w, hid, msg, i))
  {
    var a, server := w.attempts[hid], Server(w.tables, w.ledger.store);
    var a', server' := OnProof(p, a, server, msg, i), ProofStep(p, a.ctx, server, msg, i).1;
    assert AttemptInv(p, a);
    RefusedAttempt(p, a, server, msg, i);
    QuietMessage(p, w, hid, a');
    QuietlyAbsorbed(w, hid, a', server', i);
  }

  lemma QuietlyAbsorbed(w: World, hid: string, a': Attempt, server: Server, i: ProofInput)
    requires hid in w.attempts && Quiet(w.attempts, hid, a') && server == Server(w.tables, w.ledger.store)
    ensures Absorbed(w, hid, a', server, i) == w.(attempts := w.attempts[hid := a'])
  {
  }

  lemma StepKeepsInv(p: Platform, w: World, ev: Event)
    requires p.config.Valid() && WorldInv(p, w) && Possible(p, w, ev)
    ensures WorldInv(p, Step(p, w, ev))
  {
    match ev
    case Open(hid) => OpenKeepsInv(p, w, hid);
    case Hello(hid, msg, r) =>
      HelloKeepsInv(p, w.attempts[hid], msg, r);
      QuietMessage(p, w, hid, OnHello(w.attempts[hid], msg, r));
    case Entropy(hid, msg, e) =>
      EntropyKeepsInv(p, w.attempts[hid], msg, e);
      QuietMessage(p, w, hid, OnEntropy(p.config, w.attempts[hid], msg, e));
    case Proof(hid, msg, i) =>
      if ProofStands(p, w.attempts[hid].ctx, msg) {
        StandingProof(p, w, hid, msg, i);
      } else {
        RefusedProof(p, w, hid, msg, i);
      }
    case SessionEvent(s) => LedgerEvent(w.ledger, s);
    case Restart(now) => LedgerEvent(w.ledger, Sessions.Restart(now));
  }

  lemma LedgerEvent(l: Sessions.Ledger, s: Sessions.Event)
    requires Sessions.LedgerInv(l) && Sessions.Possible(l, s) && !s.Issue?
    ensures Sessions.LedgerInv(Sessions.Step(l, s)) && Sessions.Step(l, s).lives.Keys == l.lives.Keys
  {
    Sessions.StepKeepsInv(l, s);
  }

  // ---- runs --------------------------------------------------------------

  /** The world after a run from an empty store; `None` when some event was not possible. */
  ghost function Run(p: Platform, events: seq<Event>): (w: Option<World>)
    requires p.config.Valid()
    ensures w.Some? ==> WorldInv(p, w.value)
  {
    if events == [] then
      StartKeepsInv(p);
      Some(START)
    else
      var before := Run(p, events[..|events| - 1]);
      if before.None? || !Possible(p, before.value, events[|events| - 1]) then None
      else
        StepKeepsInv(p, before.value, events[|events| - 1]);
        Some(Step(p, before.value, events[|events| - 1]))
  }

  /** `w` is the world after some run. */
  ghost predicate Reached(p: Platform, events: seq<Event>, w: World)
    requires p.config.Valid()
  {
    Run(p, events) == Some(w)
  }

  /**
    Handshake safety: an ACTIVE handshake accepted HELLO, ENTROPY and PROOF, once
    each and in this order, under three different message ids, with the suite
    offered, a consent that was valid when ENTROPY arrived, and a signature that
    verifies over its own transcript; its session derives from that transcript's hash
    and from what the two ephemeral keys agree on.
  */
  lemma ActiveIsEarned(p: Platform, events: seq<Event>, w: World, hid: string)
    requires p.config.Valid() && Reached(p, events, w) && hid in w.attempts && w.attempts[hid].ctx.phase == ACTIVE
    ensures var a := w.attempts[hid];
      && |a.accepted| == 3
      && a.accepted[0].HelloAccepted? && a.accepted[1].EntropyAccepted? && a.accepted[2].ProofAccepted?
      && a.accepted[0].key != a.accepted[1].key && a.accepted[1].key != a.accepted[2].key
      && a.accepted[0].key != a.accepted[2].key
      && DEVICE_SCOPE in a.accepted[1].consent.scopes
      && a.accepted[1].consent.issuedAt <= a.accepted[1].at <= a.accepted[1].consent.expiresAt
      && a.ctx.subject == Some(a.accepted[1].consent.subject)
      && HasTranscript(a.ctx) && Offered(a.ctx.hello.value)
      && TranscriptHash(p, TranscriptOf(a.ctx)) == Some(a.accepted[2].hash)
      && p.verify(a.accepted[2].proof.publicKey, a.accepted[2].hash, a.accepted[2].proof.signature)
      && a.ctx.session.Some? && a.ctx.eph.Some? && Agreed(p, a.ctx, a.accepted[2].proof).Some?
      && var s := a.ctx.session.value;
        s.sdna == Sessions.Initial(Agreed(p, a.ctx, a.accepted[2].proof).value, a.accepted[2].hash) &&
        s.generation == 0 && s.issuedAt == a.accepted[2].at && s.expiresAt == a.accepted[2].at + 300
  {
    assert AttemptInv(p, w.attempts[hid]);
  }

  /** The handshake is ACTIVE and holds the session of this id. */
  predicate Holds(a: Attempt, id: string) {
    a.ctx.phase == ACTIVE && a.ctx.session.Some? && a.ctx.session.value.id == id
  }

  /** Every session is held by one ACTIVE handshake and every ACTIVE handshake holds one. */
  ghost predicate OneToOne(attempts: map<string, Attempt>, lives: map<string, Sessions.Life>) {
    && (forall id :: id in lives <==> exists h | h in attempts :: Holds(attempts[h], id))
    && (forall h | h in attempts && attempts[h].ctx.phase == ACTIVE ::
         exists id | id in lives :: Holds(attempts[h], id))
    && (forall h, h', id | h in attempts && h' in attempts && Holds(attempts[h], id) && Holds(attempts[h'], id) ::
         h == h')
  }

  lemma ActiveHasSession(p: Platform, attempts: map<string, Attempt>)
    requires AttemptsInv(p, attempts)
    ensures forall h | h in attempts :: attempts[h].ctx.phase == ACTIVE <==> attempts[h].ctx.session.Some?
  {
    forall h | h in attempts ensures attempts[h].ctx.phase == ACTIVE <==> attempts[h].ctx.session.Some? {
      assert AttemptInv(p, attempts[h]);
    }
  }

  lemma HolderIsIssuer(attempts: map<string, Attempt>, lives: map<string, Sessions.Life>, issuer: map<string, string>,
                       h: string, id: string)
    requires IssuerInv(attempts, lives, issuer) && h in attempts && Holds(attempts[h], id)
    ensures id in issuer && issuer[id] == h
  {
  }

  lemma IssuedMatchActive(attempts: map<string, Attempt>, lives: map<string, Sessions.Life>,
                          issuer: map<string, string>)
    requires IssuerInv(attempts, lives, issuer)
    requires forall h | h in attempts :: attempts[h].ctx.phase == ACTIVE <==> attempts[h].ctx.session.Some?
    ensures OneToOne(attempts, lives)
  {
    forall id | id in lives ensures exists h | h in attempts :: Holds(attempts[h], id) {
      assert Holds(attempts[issuer[id]], id);
    }
    forall h | h in attempts && attempts[h].ctx.phase == ACTIVE
      ensures exists id | id in lives :: Holds(attempts[h], id)
    {
      assert Holds(attempts[h], attempts[h].ctx.session.value.id);
    }
    forall h, h', id | h in attempts && h' in attempts && Holds(attempts[h], id) && Holds(attempts[h'], id)
      ensures h == h'
    {
      HolderIsIssuer(attempts, lives, issuer, h, id);
      HolderIsIssuer(attempts, lives, issuer, h', id);
    }
  }

  /** Sessions ever issued and ACTIVE handshakes correspond one to one. */
  lemma SessionsMatchActive(p: Platform, events: seq<Event>, w: World)
    requires p.config.Valid() && Reached(p, events, w)
    ensures OneToOne(w.attempts, w.ledger.lives)
  {
    ActiveHasSession(p, w.attempts);
    IssuedMatchActive(w.attempts, w.ledger.lives, w.issuer);
  }

  // ---- the trust loop, over runs -----------------------------------------

  /** The PROOF is possible next, and it stands. */
  predicate StandsIn(p: Platform, w: World, hid: string, msg: Members, i: ProofInput) {
    Possible(p, w, Event.Proof(hid, msg, i)) && ProofStands(p, w.attempts[hid].ctx, msg)
  }

  /** The session such a proof puts before the trust engine. */
  function SessionIn(p: Platform, w: World, hid: string, msg: Members, i: ProofInput): Session
    requires StandsIn(p, w, hid, msg, i)
  {
    SessionOf(w.attempts[hid].ctx, i)
  }

  /** What the gateway makes of it: the phase it leaves the handshake in, and the tables. */
  function Handled(p: Platform, w: World, hid: string, msg: Members, i: ProofInput): (Phase, Tables)
    requires StandsIn(p, w, hid, msg, i)
  {
    var (ctx, server, _) := ProofStep(p, w.attempts[hid].ctx, Server(w.tables, w.ledger.store), msg, i);
    (ctx.phase, server.tables)
  }

  lemma HandledIsJudged(p: Platform, w: World, hid: string, msg: Members, i: ProofInput)
    requires p.config.Valid() && WorldInv(p, w) && StandsIn(p, w, hid, msg, i)
    ensures var s, (phase, tables) := SessionIn(p, w, hid, msg, i), Handled(p, w, hid, msg, i);
      && WellFormed(p.config, s.iv) && TrustInv(p.config, w.tables)
      && (phase == DENIED <==> JudgeIn(p.config, w.tables, s).decision == DENY)
      && tables == Learn(p.config, w.tables, s)
  {
    assert AttemptInv(p, w.attempts[hid]);
    ProofJudged(p, w.attempts[hid].ctx, Server(w.tables, w.ledger.store), msg, i);
    AfterKeepsInv(p.config, EMPTY, w.audit);
  }

  /**
    A standing proof in any run: it never reaches ALLOW, a subject that is not
    enrolled is denied and enrolled, an enrolled one keeps its baseline and has the
    outcome recorded, and nobody else is affected.
  */
  lemma ProofInRun(p: Platform, events: seq<Event>, w: World, hid: string, msg: Members, i: ProofInput)
    requires p.config.Valid() && Reached(p, events, w) && StandsIn(p, w, hid, msg, i)
    ensures var s, (phase, tables) := SessionIn(p, w, hid, msg, i), Handled(p, w, hid, msg, i);
      var v, before := JudgeIn(p.config, w.tables, s), StandingOf(w.tables, s.subject);
      && v.decision != ALLOW && v.score <= 35.0 * Conf(p.config) + 45.0 < 80.0
      && (phase == DENIED <==> v.decision == DENY)
      && (before.baseline.None? ==> phase == DENIED)
      && StandingOf(tables, s.subject) ==
           (if before.baseline.None? then Standing(Some(s.iv), [])
            else Standing(before.baseline, before.past + [phase != DENIED]))
      && (forall other | other != s.subject :: StandingOf(tables, other) == StandingOf(w.tables, other))
  {
    HandledIsJudged(p, w, hid, msg, i);
    var s := SessionIn(p, w, hid, msg, i);
    var st := StandingOf(w.tables, s.subject);
    assert StandingInv(p.config, st);
    Plateau(p.config, st, s);
    LearnedExactly(p.config, st, s);
    forall subject {
      LearnIsLocal(p.config, w.tables, s, subject);
    }
  }

  /** The handshakes in which a subject's audited sessions took place. */
  function HandshakesOf(audit: seq<Session>, judged: seq<string>, subject: string): (own: seq<string>)
    requires |audit| == |judged|
    ensures |own| == |Of(audit, subject)|
  {
    if audit == [] then []
    else
      var n := |audit| - 1;
      HandshakesOf(audit[..n], judged[..n], subject) + (if audit[n].subject == subject then [judged[n]] else [])
  }

  lemma {:induction false} ListedFrom(audit: seq<Session>, judged: seq<string>, subject: string, h: string)
    returns (n: nat)
    requires |audit| == |judged| && h in HandshakesOf(audit, judged, subject)
    ensures n < |audit| && judged[n] == h && audit[n].subject == subject
  {
    n := |audit| - 1;
    if judged[n] != h || audit[n].subject != subject {
      n := ListedFrom(audit[..n], judged[..n], subject, h);
    }
  }

  lemma {:induction false} Listed(audit: seq<Session>, judged: seq<string>, subject: string, n: nat)
    requires |audit| == |judged| && n < |audit| && audit[n].subject == subject
    ensures judged[n] in HandshakesOf(audit, judged, subject)
  {
    if n < |audit| - 1 {
      Listed(audit[..|audit| - 1], judged[..|audit| - 1], subject, n);
    }
  }

  /** They are listed once each. */
  lemma {:induction false} ListedOnce(audit: seq<Session>, judged: seq<string>, subject: string)
    requires |audit| == |judged| && Distinct(judged)
    ensures Distinct(HandshakesOf(audit, judged, subject))
  {
    if audit != [] {
      var n := |audit| - 1;
      var own := HandshakesOf(audit[..n], judged[..n], subject);
      ListedOnce(audit[..n], judged[..n], subject);
      forall m | 0 <= m < |own| ensures own[m] != judged[n] {
        var k := ListedFrom(audit[..n], judged[..n], subject, own[m]);
        assert judged[..n][k] == judged[k];
      }
    }
  }

  /** A subject's trust-evaluated handshakes, listed once each. */
  lemma ListedExactly(attempts: map<string, Attempt>, audit: seq<Session>, judged: seq<string>, subject: string)
    requires JudgedInv(attempts, audit, judged)
    ensures Distinct(HandshakesOf(audit, judged, subject))
    ensures forall h :: h in HandshakesOf(audit, judged, subject) <==>
      h in attempts && Evaluated(attempts[h].ctx.phase) && attempts[h].ctx.subject == Some(subject)
  {
    ListedOnce(audit, judged, subject);
    forall h | h in HandshakesOf(audit, judged, subject)
      ensures h in attempts && Evaluated(attempts[h].ctx.phase) && attempts[h].ctx.subject == Some(subject)
    {
      var n := ListedFrom(audit, judged, subject, h);
    }
    forall h | h in attempts && Evaluated(attempts[h].ctx.phase) && attempts[h].ctx.subject == Some(subject)
      ensures h in HandshakesOf(audit, judged, subject)
    {
      var n :| 0 <= n < |judged| && judged[n] == h;
      Listed(audit, judged, subject, n);
    }
  }

  lemma TablesConserve(c: Config, w: World, subject: string)
    requires c.Valid() && TablesInv(c, w.tables, w.audit)
    ensures Recorded(StandingOf(w.tables, subject), Of(w.audit, subject), Outcomes(c, EMPTY, w.audit, subject))
    ensures |LogOf(w.tables.history, subject)| == if Of(w.audit, subject) == [] then 0 else |Of(w.audit, subject)| - 1
  {
    Conservation(c, w.audit, subject);
    assert StandingOf(w.tables, subject).past == LogOf(w.tables.history, subject);
  }

  /** A subject's trust-evaluated handshakes, each once, against its log. */
  ghost predicate Conserves(w: World, subject: string)
    requires |w.audit| == |w.judged|
  {
    var own := HandshakesOf(w.audit, w.judged, subject);
    && Distinct(own)
    && (forall h :: h in own <==>
         h in w.attempts && Evaluated(w.attempts[h].ctx.phase) && w.attempts[h].ctx.subject == Some(subject))
    && |LogOf(w.tables.history, subject)| == (if own == [] then 0 else |own| - 1)
  }

  lemma WorldConserves(c: Config, w: World, subject: string)
    requires c.Valid() && TablesInv(c, w.tables, w.audit) && JudgedInv(w.attempts, w.audit, w.judged)
    ensures Conserves(w, subject)
    ensures Recorded(StandingOf(w.tables, subject), Of(w.audit, subject), Outcomes(c, EMPTY, w.audit, subject))
  {
    TablesConserve(c, w, subject);
    ListedExactly(w.attempts, w.audit, w.judged, subject);
  }

  /**
    Conservation, over runs: a subject's log holds one outcome for each of its
    handshakes that were trust-evaluated, except the first, in order; it has a
    baseline exactly when there was such a handshake, and that is the first one's.
  */
  lemma RunConserves(p: Platform, events: seq<Event>, w: World, subject: string)
    requires p.config.Valid() && Reached(p, events, w)
    ensures |w.judged| == |w.audit| && Conserves(w, subject)
    ensures Recorded(StandingOf(w.tables, subject), Of(w.audit, subject), Outcomes(p.config, EMPTY, w.audit, subject))
  {
    WorldConserves(p.config, w, subject);
  }

  // ---- the session ledger, over runs ------------------------------------

  /** An event moves the ledger as one of the session store's own events, or not at all. */
  lemma LedgerMoves(p: Platform, w: World, ev: Event) returns (e: Option<Sessions.Event>)
    requires p.config.Valid() && WorldInv(p, w) && Possible(p, w, ev)
    ensures if e.None? then Step(p, w, ev).ledger == w.ledger
            else Sessions.Possible(w.ledger, e.value) && Step(p, w, ev).ledger == Sessions.Step(w.ledger, e.value)
  {
    match ev
    case Proof(hid, msg, i) =>
      if ProofStands(p, w.attempts[hid].ctx, msg) {
        e := StandingMoves(p, w, hid, msg, i);
      } else {
        RefusedMoves(p, w, hid, msg, i);
        e := None;
      }
    case SessionEvent(s) => e := Some(s);
    case Restart(now) => e := Some(Sessions.Restart(now));
    case _ => e := None;
  }

  lemma RefusedMoves(p: Platform, w: World, hid: string, msg: Members, i: ProofInput)
    requires WorldInv(p, w) && Possible(p, w, Event.Proof(hid, msg, i))
    requires !ProofStands(p, w.attempts[hid].ctx, msg)
    ensures AfterProof(p, w, hid, msg, i).ledger == w.ledger
  {
    var a, server := w.attempts[hid], Server(w.tables, w.ledger.store);
    assert AttemptInv(p, a);
    RefusedAttempt(p, a, server, msg, i);
    QuietlyAbsorbed(w, hid, OnProof(p, a, server, msg, i), ProofStep(p, a.ctx, server, msg, i).1, i);
  }

  lemma StandingMoves(p: Platform, w: World, hid: string, msg: Members, i: ProofInput)
    returns (e: Option<Sessions.Event>)
    requires p.config.Valid() && WorldInv(p, w) && Possible(p, w, Event.Proof(hid, msg, i))
    requires ProofStands(p, w.attempts[hid].ctx, msg)
    ensures var l := AfterProof(p, w, hid, msg, i).ledger;
      if e.None? then l == w.ledger
      else Sessions.Possible(w.ledger, e.value) && l == Sessions.Step(w.ledger, e.value)
  {
    var a, server := w.attempts[hid], Server(w.tables, w.ledger.store);
    assert AttemptInv(p, a);
    StandingAttempt(p, w, hid, msg, i);
    StandingSession(p, w, hid, msg, i);
    e := AbsorbedMoves(w, hid, OnProof(p, a, server, msg, i), ProofStep(p, a.ctx, server, msg, i).1, i);
  }

  lemma AbsorbedMoves(w: World, hid: string, a': Attempt, server: Server, i: ProofInput)
    returns (e: Option<Sessions.Event>)
    requires Stood(w, hid, a', server) && w.ledger.clock <= i.now
    requires a'.ctx.session.Some? ==> NewlyIssued(a'.ctx.session.value, i.now)
    ensures var l := Absorbed(w, hid, a', server, i).ledger;
      if e.None? then l == w.ledger
      else Sessions.Possible(w.ledger, e.value) && l == Sessions.Step(w.ledger, e.value)
  {
    if a'.ctx.session.None? {
      e := None;
    } else {
      var s := a'.ctx.session.value;
      e := Some(Sessions.Issue(s.id, s.sdna.shared, s.sdna.transcriptHash, i.now, s.interval));
    }
  }

  /** What no event undoes: audited sessions stay audited, dead session values dead and gone sessions gone. */
  ghost predicate Lasting(w: World, w': World) {
    && w.audit <= w'.audit
    && (forall id, value | Sessions.Dead(w.ledger, id, value) :: Sessions.Dead(w'.ledger, id, value))
    && (forall id | Sessions.Gone(w.ledger, id) :: Sessions.Gone(w'.ledger, id))
  }

  lemma LastingTransitive(w: World, w': World, w'': World)
    requires Lasting(w, w') && Lasting(w', w'')
    ensures Lasting(w, w'')
  {
  }

  lemma DeadEvent(l: Sessions.Ledger, s: Sessions.Event)
    requires Sessions.LedgerInv(l) && Sessions.Possible(l, s)
    ensures forall id, value | Sessions.Dead(l, id, value) :: Sessions.Dead(Sessions.Step(l, s), id, value)
    ensures forall id | Sessions.Gone(l, id) :: Sessions.Gone(Sessions.Step(l, s), id)
  {
    forall id, value | Sessions.Dead(l, id, value) ensures Sessions.Dead(Sessions.Step(l, s), id, value) {
      Sessions.DeadStep(l, s, id, value);
    }
    forall id | Sessions.Gone(l, id) ensures Sessions.Gone(Sessions.Step(l, s), id) {
      Sessions.GoneStep(l, s, id);
    }
  }

  lemma AbsorbedAudit(w: World, hid: string, a': Attempt, server: Server, i: ProofInput)
    requires hid in w.attempts
    ensures w.audit <= Absorbed(w, hid, a', server, i).audit
  {
  }

  lemma StepLasts(p: Platform, w: World, ev: Event)
    requires p.config.Valid() && WorldInv(p, w) && Possible(p, w, ev)
    ensures Lasting(w, Step(p, w, ev))
  {
    var e := LedgerMoves(p, w, ev);
    if e.Some? {
      DeadEvent(w.ledger, e.value);
    }
    match ev
    case Proof(hid, msg, i) =>
      var a, server := w.attempts[hid], Server(w.tables, w.ledger.store);
      AbsorbedAudit(w, hid, OnProof(p, a, server, msg, i), ProofStep(p, a.ctx, server, msg, i).1, i);
    case _ =>
  }

  lemma LastsThroughStep(p: Platform, first: World, w: World, ev: Event)
    requires p.config.Valid() && Lasting(first, w) && WorldInv(p, w) && Possible(p, w, ev)
    ensures Lasting(first, Step(p, w, ev))
  {
    StepLasts(p, w, ev);
    LastingTransitive(first, w, Step(p, w, ev));
  }

  lemma RunOneMore(p: Platform, events: seq<Event>, ev: Event)
    requires p.config.Valid() && Run(p, events + [ev]).Some?
    ensures Run(p, events).Some? && Possible(p, Run(p, events).value, ev)
    ensures Run(p, events + [ev]).value == Step(p, Run(p, events).value, ev)
  {
    assert (events + [ev])[..|events|] == events;
  }

  lemma {:induction false} RunLasts(p: Platform, events: seq<Event>, more: seq<Event>)
    requires p.config.Valid() && Run(p, events + more).Some?
    ensures Run(p, events).Some? && Lasting(Run(p, events).value, Run(p, events + more).value)
  {
    if more == [] {
      assert events + more == events;
    } else {
      var front, last := events + more[..|more| - 1], more[|more| - 1];
      assert events + more == front + [last];
      RunOneMore(p, front, last);
      RunLasts(p, events, more[..|more| - 1]);
      LastsThroughStep(p, Run(p, events).value, Run(p, front).value, last);
    }
  }

  /** The tables of a longer run are those of the shorter, after the sessions audited since. */
  function Since(w: World, w': World): (since: seq<Session>)
    requires w.audit <= w'.audit
    ensures w'.audit == w.audit + since
  {
    w'.audit[|w.audit|..]
  }

  lemma TablesSince(c: Config, w: World, w': World)
    requires c.Valid() && w.audit <= w'.audit
    requires TablesInv(c, w.tables, w.audit) && TablesInv(c, w'.tables, w'.audit)
    ensures TrustInv(c, w.tables) && WellFormedRun(c, Since(w, w'))
    ensures w'.tables == After(c, w.tables, Since(w, w'))
  {
    var since := Since(w, w');
    AfterAppend(c, EMPTY, w.audit, since);
    AfterKeepsInv(c, EMPTY, w.audit);
    forall n | 0 <= n < |since| ensures WellFormed(c, since[n].iv) {
      assert since[n] == w'.audit[|w.audit| + n];
    }
  }

  /**
    Lockout, over runs: once a subject is locked, whatever handshakes, renewals and
    restarts follow, every proof of it that stands is denied.
  */
  lemma LockoutInRun(p: Platform, events: seq<Event>, w: World, more: seq<Event>, w': World,
                     hid: string, msg: Members, i: ProofInput)
    requires p.config.Valid() && Reached(p, events, w) && Reached(p, events + more, w')
    requires StandsIn(p, w', hid, msg, i)
    requires Locked(p.config, StandingOf(w.tables, SessionIn(p, w', hid, msg, i).subject))
    ensures Handled(p, w', hid, msg, i).0 == DENIED
  {
    RunLasts(p, events, more);
    LockoutSince(p, w, w', hid, msg, i);
  }

  lemma LockoutSince(p: Platform, w: World, w': World, hid: string, msg: Members, i: ProofInput)
    requires p.config.Valid() && WorldInv(p, w) && WorldInv(p, w') && w.audit <= w'.audit
    requires StandsIn(p, w', hid, msg, i)
    requires Locked(p.config, StandingOf(w.tables, SessionIn(p, w', hid, msg, i).subject))
    ensures Handled(p, w', hid, msg, i).0 == DENIED
  {
    var s := SessionIn(p, w', hid, msg, i);
    HandledIsJudged(p, w', hid, msg, i);
    TablesSince(p.config, w, w');
    LockoutIsExact(p.config, w.tables, s.subject);
    assert JudgeIn(p.config, After(p.config, w.tables, Since(w, w')), s).decision == DENY;
  }

  /**
    Acceptance, over runs: if a session would be accepted now, then, as long as the
    subject's sessions audited in between are at least as good, so is a proof that
    is at least as good: it is not denied and scores no less.
  */
  lemma AcceptanceInRun(p: Platform, events: seq<Event>, w: World, more: seq<Event>, w': World, s: Session,
                        hid: string, msg: Members, i: ProofInput)
    requires p.config.Valid() && Reached(p, events, w) && Reached(p, events + more, w')
    requires WellFormed(p.config, s.iv) && s.subject in w.tables.subjects
    requires JudgeIn(p.config, w.tables, s).decision != DENY
    requires forall n | |w.audit| <= n < |w'.audit| && w'.audit[n].subject == s.subject ::
      NotWorse(w.tables.subjects[s.subject], s, w'.audit[n])
    requires StandsIn(p, w', hid, msg, i) && SessionIn(p, w', hid, msg, i).subject == s.subject
    requires NotWorse(w.tables.subjects[s.subject], s, SessionIn(p, w', hid, msg, i))
    ensures Handled(p, w', hid, msg, i).0 != DENIED
    ensures JudgeIn(p.config, w'.tables, SessionIn(p, w', hid, msg, i)).score >= JudgeIn(p.config, w.tables, s).score
  {
    RunLasts(p, events, more);
    AcceptanceSince(p, w, w', s, hid, msg, i);
  }

  lemma AcceptanceSince(p: Platform, w: World, w': World, s: Session, hid: string, msg: Members, i: ProofInput)
    requires p.config.Valid() && WorldInv(p, w) && WorldInv(p, w') && w.audit <= w'.audit
    requires WellFormed(p.config, s.iv) && s.subject in w.tables.subjects
    requires JudgeIn(p.config, w.tables, s).decision != DENY
    requires forall n | |w.audit| <= n < |w'.audit| && w'.audit[n].subject == s.subject ::
      NotWorse(w.tables.subjects[s.subject], s, w'.audit[n])
    requires StandsIn(p, w', hid, msg, i) && SessionIn(p, w', hid, msg, i).subject == s.subject
    requires NotWorse(w.tables.subjects[s.subject], s, SessionIn(p, w', hid, msg, i))
    ensures Handled(p, w', hid, msg, i).0 != DENIED
    ensures JudgeIn(p.config, w'.tables, SessionIn(p, w', hid, msg, i)).score >= JudgeIn(p.config, w.tables, s).score
  {
    var since := Since(w, w');
    HandledIsJudged(p, w', hid, msg, i);
    TablesSince(p.config, w, w');
    forall n | 0 <= n < |since| && since[n].subject == s.subject
      ensures NotWorse(w.tables.subjects[s.subject], s, since[n])
    {
      assert since[n] == w'.audit[|w.audit| + n];
    }
    AcceptedStaysAccepted(p.config, w.tables, s, since, SessionIn(p, w', hid, msg, i));
  }

  // ---- sessions, over runs -----------------------------------------------

  /** A superseded, revoked, expired or forgotten session value never validates again, in any run. */
  lemma DeadInRun(p: Platform, events: seq<Event>, w: World, more: seq<Event>, w': World,
                  id: string, value: Sessions.Sdna)
    requires p.config.Valid() && Reached(p, events, w) && Reached(p, events + more, w')
    requires Sessions.Dead(w.ledger, id, value)
    ensures Sessions.Dead(w'.ledger, id, value)
  {
    RunLasts(p, events, more);
  }

  lemma RevokedIsGone(p: Platform, events: seq<Event>, w: World, id: string, at: int)
    requires p.config.Valid() && Reached(p, events + [SessionEvent(Sessions.Revocation(id, at))], w)
    requires id in w.ledger.lives
    ensures Sessions.Gone(w.ledger, id)
  {
    RunOneMore(p, events, SessionEvent(Sessions.Revocation(id, at)));
  }

  /** A session that was issued and revoked is refused ever after, whatever handshakes, renewals and restarts follow. */
  lemma RevokedInRun(p: Platform, events: seq<Event>, w: World, id: string, at: int, more: seq<Event>, w': World,
                     presented: Sessions.Sdna, now: int)
    requires p.config.Valid() && Reached(p, events + [SessionEvent(Sessions.Revocation(id, at))], w)
    requires id in w.ledger.lives && Reached(p, events + [SessionEvent(Sessions.Revocation(id, at))] + more, w')
    ensures w'.ledger.store.Refusal(id, presented, now).Some?
  {
    RevokedIsGone(p, events, w, id, at);
    RunLasts(p, events + [SessionEvent(Sessions.Revocation(id, at))], more);
    Sessions.GoneIsRefused(w'.ledger, id, presented, now);
  }

  lemma BoundMoves(p: Platform, w: World, ev: Event, id: string)
    requires p.config.Valid() && WorldInv(p, w) && Possible(p, w, ev)
    ensures Sessions.PromptIn(Step(p, w, ev).ledger, id) <==>
      Sessions.PromptIn(w.ledger, id) && Sessions.KeepsBound(Step(p, w, ev).ledger, id)
  {
    var e := LedgerMoves(p, w, ev);
    if e.Some? {
      Sessions.BoundStep(w.ledger, e.value, id);
    } else if Sessions.PromptIn(w.ledger, id) {
      Sessions.PromptKeepsBound(w.ledger, id);
    }
  }

  /** At every moment of the run the session was refused from its unlagged bound on. */
  ghost predicate AlwaysKept(p: Platform, events: seq<Event>, id: string)
    requires p.config.Valid()
  {
    events == [] ||
    (AlwaysKept(p, events[..|events| - 1], id) &&
     (Run(p, events).Some? ==> Sessions.KeepsBound(Run(p, events).value.ledger, id)))
  }

  /**
    The unlagged bound, over runs: at every moment a session is refused from birth
    plus one interval per generation on, whatever is presented, if and only if every
    one of its generations was issued within its interval after birth.
  */
  lemma {:induction false} BoundInRun(p: Platform, events: seq<Event>, w: World, id: string)
    requires p.config.Valid() && Reached(p, events, w)
    ensures AlwaysKept(p, events, id) <==> Sessions.PromptIn(w.ledger, id)
  {
    if events != [] {
      var front, last := events[..|events| - 1], events[|events| - 1];
      assert events == front + [last];
      RunOneMore(p, front, last);
      var before := Run(p, front).value;
      BoundInRun(p, front, before, id);
      BoundMoves(p, before, last, id);
    }
  }
}

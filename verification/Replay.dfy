/**
  Replay across handshakes: as long as the server never draws an ephemeral key
  twice, a proof that stood once never stands again, anywhere in the run.
*/
module Replay {
  import opened Prelude
  import opened Attempts
  import opened Framing
  import opened Handshake
  import opened World
  import Sessions

  /** No two HELLOs of the run meet the same ephemeral key. */
  predicate FreshKeys(events: seq<Event>) {
    forall n, m | 0 <= n < m < |events| && events[n].Hello? && events[m].Hello? ::
      events[n].randoms.ephPublic != events[m].randoms.ephPublic
  }

  predicate Draws(ev: Event, hid: string, key: string) {
    ev.Hello? && ev.hid == hid && ev.randoms.ephPublic == key
  }

  /** A handshake's key was drawn for one of its own HELLOs. */
  ghost predicate Drawn(events: seq<Event>, attempts: map<string, Attempt>) {
    forall h | h in attempts && attempts[h].ctx.eph.Some? ::
      exists n | 0 <= n < |events| :: Draws(events[n], h, attempts[h].ctx.eph.value)
  }

  /** From `a` to `a'` a handshake goes no way back, and keeps its key unless it is given `drawn`. */
  predicate Onward(a: Attempt, a': Attempt, drawn: Option<string>) {
    && Rank(a'.ctx.phase) <= Rank(a.ctx.phase)
    && (a'.ctx.eph == a.ctx.eph || (drawn.Some? && a'.ctx.eph == drawn))
  }

  lemma HelloOnward(p: Platform, a: Attempt, msg: Members, r: HelloRandoms)
    requires AttemptInv(p, a)
    ensures Onward(a, OnHello(a, msg, r), Some(r.ephPublic))
  {
    HelloKeepsInv(p, a, msg, r);
    HelloEffect(a.ctx, msg, r);
  }

  lemma EntropyOnward(p: Platform, a: Attempt, msg: Members, e: EntropyInput)
    requires p.config.Valid() && e.Fits(p.config) && AttemptInv(p, a)
    ensures Onward(a, OnEntropy(p.config, a, msg, e), None)
  {
    EntropyKeepsInv(p, a, msg, e);
    EntropyEffect(p.config, a.ctx, msg, e);
  }

  lemma ProofOnward(p: Platform, a: Attempt, server: Server, msg: Members, i: ProofInput)
    requires AttemptInv(p, a)
    ensures Onward(a, OnProof(p, a, server, msg, i), None)
  {
    ProofKeepsInv(p, a, server, msg, i);
  }

  /** The key that an event draws for a handshake. */
  function DrawnBy(ev: Event, h: string): Option<string> {
    if ev.Hello? && ev.hid == h then Some(ev.randoms.ephPublic) else None
  }

  /** No event takes a handshake back, and none is forgotten; a new one starts without a key. */
  ghost predicate AllOnward(attempts: map<string, Attempt>, ev: Event, attempts': map<string, Attempt>) {
    && (forall h | h in attempts :: h in attempts' && Onward(attempts[h], attempts'[h], DrawnBy(ev, h)))
    && (forall h | h in attempts' && h !in attempts :: attempts'[h].ctx.eph.None?)
  }

  lemma OneOnward(attempts: map<string, Attempt>, ev: Event, hid: string, a': Attempt)
    requires if hid in attempts then Onward(attempts[hid], a', DrawnBy(ev, hid)) else a'.ctx.eph.None?
    ensures AllOnward(attempts, ev, attempts[hid := a'])
  {
  }

  lemma StandingStill(attempts: map<string, Attempt>, ev: Event)
    ensures AllOnward(attempts, ev, attempts)
  {
  }

  lemma AbsorbedAttempts(w: World, hid: string, a': Attempt, server: Server, i: ProofInput)
    requires hid in w.attempts
    ensures Absorbed(w, hid, a', server, i).attempts == w.attempts[hid := a']
  {
  }

  lemma ProofStepOnward(p: Platform, w: World, hid: string, msg: Members, i: ProofInput)
    requires hid in w.attempts && AttemptInv(p, w.attempts[hid]) && Prepared(w.attempts[hid])
    ensures AllOnward(w.attempts, Event.Proof(hid, msg, i), AfterProof(p, w, hid, msg, i).attempts)
  {
    var a, server := w.attempts[hid], Server(w.tables, w.ledger.store);
    var a' := OnProof(p, a, server, msg, i);
    ProofOnward(p, a, server, msg, i);
    AbsorbedAttempts(w, hid, a', ProofStep(p, a.ctx, server, msg, i).1, i);
    OneOnward(w.attempts, Event.Proof(hid, msg, i), hid, a');
  }

  lemma StepOnward(p: Platform, w: World, ev: Event)
    requires p.config.Valid() && AttemptsInv(p, w.attempts) && Possible(p, w, ev)
    ensures AllOnward(w.attempts, ev, Step(p, w, ev).attempts)
  {
    match ev
    case Open(hid) => OneOnward(w.attempts, ev, hid, Attempt(FRESH, []));
    case Hello(hid, msg, r) =>
      HelloOnward(p, w.attempts[hid], msg, r);
      OneOnward(w.attempts, ev, hid, OnHello(w.attempts[hid], msg, r));
    case Entropy(hid, msg, e) =>
      EntropyOnward(p, w.attempts[hid], msg, e);
      OneOnward(w.attempts, ev, hid, OnEntropy(p.config, w.attempts[hid], msg, e));
    case Proof(hid, msg, i) => ProofStepOnward(p, w, hid, msg, i);
    case _ => StandingStill(w.attempts, ev);
  }

  lemma DrawnGrows(events: seq<Event>, attempts: map<string, Attempt>, ev: Event, attempts': map<string, Attempt>)
    requires Drawn(events, attempts) && AllOnward(attempts, ev, attempts')
    ensures Drawn(events + [ev], attempts')
  {
    var events' := events + [ev];
    forall h | h in attempts' && attempts'[h].ctx.eph.Some?
      ensures exists n | 0 <= n < |events'| :: Draws(events'[n], h, attempts'[h].ctx.eph.value)
    {
      if attempts'[h].ctx.eph == DrawnBy(ev, h) {
        assert Draws(events'[|events|], h, attempts'[h].ctx.eph.value);
      } else {
        var n :| 0 <= n < |events| && Draws(events[n], h, attempts[h].ctx.eph.value);
        assert events'[n] == events[n];
      }
    }
  }

  lemma RunOnward(p: Platform, events: seq<Event>, ev: Event)
    requires p.config.Valid() && Run(p, events + [ev]).Some?
    ensures Run(p, events).Some?
    ensures AllOnward(Run(p, events).value.attempts, ev, Run(p, events + [ev]).value.attempts)
  {
    RunOneMore(p, events, ev);
    StepOnward(p, Run(p, events).value, ev);
  }

  lemma {:induction false} RunDraws(p: Platform, events: seq<Event>, w: World)
    requires p.config.Valid() && Reached(p, events, w)
    ensures Drawn(events, w.attempts)
  {
    if events != [] {
      var front, last := events[..|events| - 1], events[|events| - 1];
      assert events == front + [last];
      RunOnward(p, front, last);
      var before := Run(p, front).value;
      RunDraws(p, front, before);
      DrawnGrows(front, before.attempts, last, w.attempts);
    }
  }

  lemma FreshDraws(events: seq<Event>, n: nat, h: string, key: string, m: nat, h': string, key': string)
    requires FreshKeys(events) && n < |events| && m < |events| && h != h'
    requires Draws(events[n], h, key) && Draws(events[m], h', key')
    ensures key != key'
  {
    if n < m {
      assert events[n].randoms.ephPublic != events[m].randoms.ephPublic;
    } else {
      assert events[m].randoms.ephPublic != events[n].randoms.ephPublic;
    }
  }

  /** At whatever two moments of a run they hold them, two handshakes have different keys. */
  lemma KeysDiffer(p: Platform, events: seq<Event>, w: World, more: seq<Event>, w': World, h: string, h': string)
    requires p.config.Valid() && FreshKeys(events + more) && Reached(p, events, w) && Reached(p, events + more, w')
    requires h in w.attempts && h' in w'.attempts && h != h'
    requires w.attempts[h].ctx.eph.Some? && w'.attempts[h'].ctx.eph.Some?
    ensures w.attempts[h].ctx.eph != w'.attempts[h'].ctx.eph
  {
    RunDraws(p, events, w);
    RunDraws(p, events + more, w');
    var key, key' := w.attempts[h].ctx.eph.value, w'.attempts[h'].ctx.eph.value;
    var n :| 0 <= n < |events| && Draws(events[n], h, key);
    assert (events + more)[n] == events[n];
    var m :| 0 <= m < |events + more| && Draws((events + more)[m], h', key');
    FreshDraws(events + more, n, h, key, m, h', key');
  }

  lemma NowDiffer(p: Platform, events: seq<Event>, w: World, h: string, h': string)
    requires p.config.Valid() && FreshKeys(events) && Reached(p, events, w)
    requires h in w.attempts && h' in w.attempts && h != h'
    ensures w.attempts[h].ctx.eph.Some? ==> w.attempts[h].ctx.eph != w.attempts[h'].ctx.eph
  {
    if w.attempts[h].ctx.eph.Some? && w.attempts[h'].ctx.eph.Some? {
      assert events + [] == events;
      KeysDiffer(p, events, w, [], w, h, h');
    }
  }

  // ---- sessions ----------------------------------------------------------

  /** Two handshakes with different keys that became ACTIVE have sessions from different hashes. */
  lemma DifferentHashes(p: Platform, a: Attempt, a': Attempt)
    requires CollisionFree(p.config.hash) && Proven(p, a) && Proven(p, a') && a.ctx.eph != a'.ctx.eph
    ensures a.accepted[2].hash != a'.accepted[2].hash
  {
    if a.accepted[2].hash == a'.accepted[2].hash {
      TranscriptBindsVector(p, a, a');
    }
  }

  /** What a session of an ACTIVE handshake derives from. */
  function SessionHash(a: Attempt): Option<string> {
    match a.ctx.session
    case Some(s) => (match s.sdna case Initial(_, hash) => Some(hash) case _ => None)
    case None => None
  }

  lemma ActiveIsProven(p: Platform, a: Attempt)
    requires AttemptInv(p, a) && a.ctx.phase == ACTIVE
    ensures Proven(p, a) && a.ctx.eph.Some? && SessionHash(a) == Some(a.accepted[2].hash)
  {
  }

  lemma ReachedAttempt(p: Platform, events: seq<Event>, w: World, h: string)
    requires p.config.Valid() && Reached(p, events, w) && h in w.attempts
    ensures AttemptInv(p, w.attempts[h])
  {
  }

  lemma DifferentSessions(p: Platform, a: Attempt, a': Attempt)
    requires CollisionFree(p.config.hash) && AttemptInv(p, a) && AttemptInv(p, a')
    requires a.ctx.phase == ACTIVE && a'.ctx.phase == ACTIVE && (a.ctx.eph.Some? ==> a.ctx.eph != a'.ctx.eph)
    ensures SessionHash(a).Some? && SessionHash(a') != SessionHash(a)
  {
    ActiveIsProven(p, a);
    ActiveIsProven(p, a');
    DifferentHashes(p, a, a');
  }

  /** The sessions of two ACTIVE handshakes never derive from one transcript hash. */
  lemma DistinctTranscripts(p: Platform, events: seq<Event>, w: World, h: string, h': string)
    requires p.config.Valid() && CollisionFree(p.config.hash) && FreshKeys(events) && Reached(p, events, w)
    requires h in w.attempts && h' in w.attempts && h != h'
    requires w.attempts[h].ctx.phase == ACTIVE && w.attempts[h'].ctx.phase == ACTIVE
    ensures SessionHash(w.attempts[h]).Some? && SessionHash(w.attempts[h']).Some?
    ensures SessionHash(w.attempts[h]) != SessionHash(w.attempts[h'])
  {
    ReachedAttempt(p, events, w, h);
    ReachedAttempt(p, events, w, h');
    NowDiffer(p, events, w, h, h');
    DifferentSessions(p, w.attempts[h], w.attempts[h']);
    DifferentSessions(p, w.attempts[h'], w.attempts[h]);
  }

  /** What an accepted proof's ephemeral keys agreed on, and the value of the session that came of it. */
  function SecretOf(p: Platform, a: Attempt): Option<Bytes> {
    if |a.accepted| == 3 && a.accepted[2].ProofAccepted? && a.ctx.eph.Some? && a.ctx.hello.Some?
    then Agreed(p, a.ctx, a.accepted[2].proof)
    else None
  }

  function ValueOf(a: Attempt): Option<Sessions.Sdna> {
    if a.ctx.session.Some? then Some(a.ctx.session.value.sdna) else None
  }

  lemma ActiveIsKeyed(p: Platform, a: Attempt)
    requires AttemptInv(p, a) && a.ctx.phase == ACTIVE
    ensures SecretOf(p, a).Some? && SessionHash(a).Some?
    ensures ValueOf(a) == Some(Sessions.Initial(SecretOf(p, a).value, SessionHash(a).value))
  {
  }

  /** Two ACTIVE handshakes hold one session value exactly when they share both the agreed secret and the transcript. */
  lemma SecretsSeparate(p: Platform, events: seq<Event>, w: World, h: string, h': string)
    requires p.config.Valid() && Reached(p, events, w) && h in w.attempts && h' in w.attempts
    requires w.attempts[h].ctx.phase == ACTIVE && w.attempts[h'].ctx.phase == ACTIVE
    ensures SecretOf(p, w.attempts[h]).Some? && SecretOf(p, w.attempts[h']).Some? && ValueOf(w.attempts[h]).Some?
    ensures ValueOf(w.attempts[h]) == ValueOf(w.attempts[h']) <==>
      && SecretOf(p, w.attempts[h]) == SecretOf(p, w.attempts[h'])
      && SessionHash(w.attempts[h]) == SessionHash(w.attempts[h'])
  {
    ReachedAttempt(p, events, w, h);
    ReachedAttempt(p, events, w, h');
    ActiveIsKeyed(p, w.attempts[h]);
    ActiveIsKeyed(p, w.attempts[h']);
  }

  // ---- proofs ------------------------------------------------------------

  /** After the run the handshake is no earlier than in a phase of this rank. */
  ghost predicate Behind(p: Platform, events: seq<Event>, h: string, rank: nat)
    requires p.config.Valid()
  {
    Run(p, events).Some? && h in Run(p, events).value.attempts &&
    Rank(Run(p, events).value.attempts[h].ctx.phase) <= rank
  }

  lemma BehindStep(p: Platform, events: seq<Event>, ev: Event, h: string, rank: nat)
    requires p.config.Valid() && Run(p, events + [ev]).Some? && Behind(p, events, h, rank)
    ensures Behind(p, events + [ev], h, rank)
  {
    RunOnward(p, events, ev);
    var before, after := Run(p, events).value.attempts, Run(p, events + [ev]).value.attempts;
    assert Onward(before[h], after[h], DrawnBy(ev, h));
  }

  lemma LastOfRun(events: seq<Event>, more: seq<Event>) returns (front: seq<Event>, last: Event)
    requires more != []
    ensures |front| < |more| && events + more == (events + front) + [last]
  {
    front, last := more[..|more| - 1], more[|more| - 1];
  }

  lemma {:induction false} RankOverRun(p: Platform, events: seq<Event>, more: seq<Event>, h: string, rank: nat)
    requires p.config.Valid() && Run(p, events + more).Some? && Behind(p, events, h, rank)
    ensures Behind(p, events + more, h, rank)
    decreases |more|
  {
    if more == [] {
      assert events + more == events;
    } else {
      var front, last := LastOfRun(events, more);
      RunOnward(p, events + front, last);
      RankOverRun(p, events, front, h, rank);
      BehindStep(p, events + front, last, h, rank);
    }
  }

  lemma StandingIsReady(p: Platform, a: Attempt, msg: Members)
    requires AttemptInv(p, a) && ProofStands(p, a.ctx, msg)
    ensures Compiling(p.config, a) && a.ctx.eph.Some? && ReadyForProof(a.ctx)
  {
  }

  lemma StandingFinishes(p: Platform, a: Attempt, server: Server, msg: Members, i: ProofInput)
    requires ReadyForProof(a.ctx) && ProofStands(p, a.ctx, msg)
    ensures Rank(OnProof(p, a, server, msg, i).ctx.phase) == 0
  {
    ProofJudged(p, a.ctx, server, msg, i);
  }

  lemma StoodIsFinished(p: Platform, w: World, hid: string, msg: Members, i: ProofInput)
    requires hid in w.attempts && ReadyForProof(w.attempts[hid].ctx) && ProofStands(p, w.attempts[hid].ctx, msg)
    ensures var attempts' := AfterProof(p, w, hid, msg, i).attempts;
      hid in attempts' && Rank(attempts'[hid].ctx.phase) == 0
  {
    var a, server := w.attempts[hid], Server(w.tables, w.ledger.store);
    StandingFinishes(p, a, server, msg, i);
    AbsorbedAttempts(w, hid, OnProof(p, a, server, msg, i), ProofStep(p, a.ctx, server, msg, i).1, i);
  }

  /** The world right after a proof that stood. */
  lemma ProofMoves(p: Platform, events: seq<Event>, w: World, hid: string, msg: Members, i: ProofInput)
    requires p.config.Valid() && Reached(p, events, w) && Run(p, events + [Event.Proof(hid, msg, i)]).Some?
    ensures hid in w.attempts && Prepared(w.attempts[hid])
    ensures Run(p, events + [Event.Proof(hid, msg, i)]).value == AfterProof(p, w, hid, msg, i)
  {
    RunOneMore(p, events, Event.Proof(hid, msg, i));
  }

  /** Its own handshake stays finished. */
  lemma NotInItsOwn(p: Platform, events: seq<Event>, w: World, hid: string, msg: Members, i: ProofInput,
                    more: seq<Event>, w': World)
    requires p.config.Valid() && Reached(p, events, w) && hid in w.attempts && ProofStands(p, w.attempts[hid].ctx, msg)
    requires Reached(p, events + [Event.Proof(hid, msg, i)] + more, w')
    ensures hid in w'.attempts && Rank(w'.attempts[hid].ctx.phase) == 0
  {
    var upTo := events + [Event.Proof(hid, msg, i)];
    RunLasts(p, upTo, more);
    ProofMoves(p, events, w, hid, msg, i);
    ReachedAttempt(p, events, w, hid);
    StandingIsReady(p, w.attempts[hid], msg);
    StoodIsFinished(p, w, hid, msg, i);
    RankOverRun(p, upTo, more, hid, 0);
  }

  /** Any other handshake has another key, at whatever moment the proof is sent to it. */
  lemma NotInAnother(p: Platform, events: seq<Event>, w: World, hid: string, msg: Members, more: seq<Event>,
                     w': World, hid': string, msg': Members)
    requires p.config.Valid() && CollisionFree(p.config.hash) && FreshKeys(events + more)
    requires Reached(p, events, w) && Reached(p, events + more, w')
    requires hid in w.attempts && ProofStands(p, w.attempts[hid].ctx, msg) && hid' in w'.attempts && hid' != hid
    requires ProofOf(msg') == ProofOf(msg) && OneHash(p, ProofOf(msg).value)
    ensures !ProofStands(p, w'.attempts[hid'].ctx, msg')
  {
    if ProofStands(p, w'.attempts[hid'].ctx, msg') {
      StandingIsReady(p, w.attempts[hid], msg);
      StandingIsReady(p, w'.attempts[hid'], msg');
      KeysDiffer(p, events, w, more, w', hid, hid');
      ProofStandsOnce(p, w.attempts[hid], w'.attempts[hid'], msg, msg');
    }
  }

  lemma Regrouped(events: seq<Event>, ev: Event, more: seq<Event>)
    ensures events + [ev] + more == events + ([ev] + more)
  {
  }

  /**
    A proof that stood never stands again: whatever follows, in whatever handshake
    and under whatever message id it is sent, the same key and signature are refused.
  */
  lemma ProofNeverStandsAgain(p: Platform, events: seq<Event>, w: World, hid: string, msg: Members, i: ProofInput,
                              more: seq<Event>, w': World, hid': string, msg': Members)
    requires p.config.Valid() && CollisionFree(p.config.hash) && FreshKeys(events + [Event.Proof(hid, msg, i)] + more)
    requires Reached(p, events, w) && hid in w.attempts && ProofStands(p, w.attempts[hid].ctx, msg)
    requires Reached(p, events + [Event.Proof(hid, msg, i)] + more, w')
    requires ProofOf(msg') == ProofOf(msg) && OneHash(p, ProofOf(msg).value)
    requires hid' in w'.attempts
    ensures !ProofStands(p, w'.attempts[hid'].ctx, msg')
  {
    if hid' == hid {
      NotInItsOwn(p, events, w, hid, msg, i, more, w');
    } else {
      var ev := Event.Proof(hid, msg, i);
      Regrouped(events, ev, more);
      NotInAnother(p, events, w, hid, msg, [ev] + more, w', hid', msg');
    }
  }
}

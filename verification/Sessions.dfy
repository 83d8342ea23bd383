/** Session DNA: issue, validation, rotation and revocation. */
module Sessions {
  import opened Prelude
  import opened Framing

  /** The two key derivations, kept symbolic: equal values come from equal inputs. */
  datatype Sdna =
    | Initial(shared: Bytes, transcriptHash: string)
    | Rotated(previous: Sdna, nonce: Bytes)

  function Depth(sdna: Sdna): nat {
    match sdna
    case Initial(_, _) => 0
    case Rotated(previous, _) => Depth(previous) + 1
  }

  datatype SessionDna =
    SessionDna(id: string, sdna: Sdna, generation: nat, issuedAt: int, expiresAt: int, interval: int)

  const ROTATION_INTERVAL_S_DEFAULT: int := 300

  function InitialSdna(id: string, shared: Bytes, transcriptHash: string, now: int, interval: int): SessionDna {
    SessionDna(id, Initial(shared, transcriptHash), 0, now, now + interval, interval)
  }

  function Rotate(current: SessionDna, nonce: Bytes, now: int): SessionDna {
    SessionDna(current.id, Rotated(current.sdna, nonce), current.generation + 1, now, now + current.interval,
               current.interval)
  }

  predicate IsExpired(s: SessionDna, now: int) {
    now >= s.expiresAt
  }

  datatype SessionError = ERR_SESSION_REVOKED | ERR_SESSION_EXPIRED

  datatype Store = Store(sessions: map<string, SessionDna>, revoked: set<string>) {

    /** `None` is acceptance. */
    function Refusal(id: string, presented: Sdna, now: int): Option<SessionError> {
      if id in revoked then Some(ERR_SESSION_REVOKED)
      else if id !in sessions then Some(ERR_SESSION_EXPIRED)
      else if IsExpired(sessions[id], now) then Some(ERR_SESSION_EXPIRED)
      else if presented != sessions[id].sdna then Some(ERR_SESSION_EXPIRED)
      else None
    }

    function Put(s: SessionDna): Store {
      this.(sessions := sessions[s.id := s])
    }
  }

  const EMPTY := Store(map[], {})

  /** Validates at `now`; the rotation reads the clock again, at `later`. */
  function Renewed(store: Store, id: string, presented: Sdna, now: int, nonce: Bytes, later: int)
    : Result<SessionDna, SessionError>
  {
    match store.Refusal(id, presented, now)
    case Some(error) => Err(error)
    case None => Ok(Rotate(store.sessions[id], nonce, later))
  }

  /** Which refusal there is: a revoked id is told apart from everything else that is wrong. */
  lemma RefusedExactly(store: Store, id: string, presented: Sdna, now: int)
    ensures var refusal := store.Refusal(id, presented, now);
      && (refusal == Some(ERR_SESSION_REVOKED) <==> id in store.revoked)
      && (refusal == None <==>
           id !in store.revoked && id in store.sessions && now < store.sessions[id].expiresAt &&
           store.sessions[id].sdna == presented)
      && (refusal == Some(ERR_SESSION_EXPIRED) <==> id !in store.revoked && refusal != None)
  {
  }

  /** A first value depends on the shared secret and on the transcript, and on nothing else; so does its lifetime. */
  lemma FirstValue(id: string, shared: Bytes, hash: string, now: int, interval: int,
                   id': string, shared': Bytes, hash': string, now': int, interval': int)
    ensures var s, s' :=
        InitialSdna(id, shared, hash, now, interval), InitialSdna(id', shared', hash', now', interval');
      && (s.sdna == s'.sdna <==> shared == shared' && hash == hash')
      && s.id == id && s.generation == 0 && s.issuedAt == now && s.expiresAt == now + interval
  {
  }

  /**
    A renewal derives from the value that was presented and from the nonce: another
    value or another nonce gives another result. Its session lives an interval from
    the second clock reading on.
  */
  lemma NextValue(store: Store, id: string, presented: Sdna, now: int, nonce: Bytes, later: int,
                  store': Store, id': string, presented': Sdna, now': int, nonce': Bytes, later': int)
    requires Renewed(store, id, presented, now, nonce, later).Ok?
    requires Renewed(store', id', presented', now', nonce', later').Ok?
    ensures var s, s' := Renewed(store, id, presented, now, nonce, later).value,
                         Renewed(store', id', presented', now', nonce', later').value;
      && (s.sdna == s'.sdna <==> presented == presented' && nonce == nonce')
      && s.sdna != presented && Depth(s.sdna) == Depth(presented) + 1
      && s.id == store.sessions[id].id && s.generation == store.sessions[id].generation + 1
      && s.interval == store.sessions[id].interval && s.issuedAt == later && s.expiresAt == later + s.interval
  {
    RefusedExactly(store, id, presented, now);
    RefusedExactly(store', id', presented', now');
  }

  /** A session that is put is accepted by its value until it expires, unless its id is revoked; others are kept. */
  lemma PutIsAccepted(store: Store, s: SessionDna, id: string, presented: Sdna, now: int)
    ensures var refusal := store.Put(s).Refusal(id, presented, now);
      if id != s.id then refusal == store.Refusal(id, presented, now)
      else refusal == None <==> id !in store.revoked && now < s.expiresAt && presented == s.sdna
  {
  }

  class SessionStore {
    var sessions: map<string, SessionDna>
    var revoked: set<string>

    function View(): Store
      reads this
    {
      Store(sessions, revoked)
    }

    constructor ()
      ensures View() == EMPTY
    {
      sessions, revoked := map[], {};
    }

    method Put(s: SessionDna)
      modifies this
      ensures View() == old(View()).Put(s)
    {
      sessions := sessions[s.id := s];
    }

    method Revoke(id: string)
      modifies this
      ensures View() == old(View()).(revoked := old(revoked) + {id})
    {
      revoked := revoked + {id};
    }

    method Validate(id: string, presented: Sdna, now: int) returns (refusal: Option<SessionError>)
      ensures refusal == View().Refusal(id, presented, now)
    {
      if id in revoked {
        return Some(ERR_SESSION_REVOKED);
      }
      if id !in sessions {
        return Some(ERR_SESSION_EXPIRED);
      }
      var current := sessions[id];
      if IsExpired(current, now) {
        return Some(ERR_SESSION_EXPIRED);
      }
      if presented != current.sdna {
        return Some(ERR_SESSION_EXPIRED);
      }
      refusal := None;
    }
  }

  method Renew(store: SessionStore, id: string, presented: Sdna, now: int, nonce: Bytes, later: int)
    returns (r: Result<SessionDna, SessionError>)
    modifies store
    ensures r == Renewed(old(store.View()), id, presented, now, nonce, later)
    ensures store.View() == if r.Ok? then old(store.View()).Put(r.value) else old(store.View())
  {
    var refusal := store.Validate(id, presented, now);
    if refusal.Some? {
      return Err(refusal.value);
    }
    var rotated := Rotate(store.sessions[id], nonce, later);
    store.Put(rotated);
    r := Ok(rotated);
  }

  // ---- runs over one store -----------------------------------------------

  /** What happens to a store: time passes between events, and a restart empties the store. */
  datatype Event =
    | Issue(id: string, shared: Bytes, transcriptHash: string, now: int, interval: int)
    | Renewal(id: string, presented: Sdna, now: int, nonce: Bytes, later: int)
    | Revocation(id: string, now: int)
    | Restart(now: int)

  /**
    Every value a session was given and when, its rotation interval, and the time
    its renewals let pass between their two clock readings.
  */
  datatype Life = Life(interval: int, times: seq<int>, lag: int, values: seq<Sdna>) {

    /** The end of the `n`-th interval after birth. */
    function Due(n: nat): int
      requires times != []
    {
      times[0] + n * interval
    }
  }

  function Newborn(s: SessionDna, now: int): Life {
    Life(s.interval, [now], 0, [s.sdna])
  }

  /** The store, the clock, and the lives of all sessions that ever were. */
  datatype Ledger = Ledger(store: Store, clock: int, lives: map<string, Life>)

  /** Session ids are never reused and clocks never run backwards. */
  predicate Possible(l: Ledger, e: Event) {
    && l.clock <= e.now
    && match e
       case Issue(id, _, _, _, _) => id !in l.lives
       case Renewal(_, _, now, _, later) => now <= later
       case _ => true
  }

  function Step(l: Ledger, e: Event): Ledger {
    match e
    case Issue(id, shared, transcriptHash, now, interval) =>
      var s := InitialSdna(id, shared, transcriptHash, now, interval);
      Ledger(l.store.Put(s), now, l.lives[id := Newborn(s, now)])
    case Renewal(id, presented, now, nonce, later) =>
      (match Renewed(l.store, id, presented, now, nonce, later)
       case Err(_) => l.(clock := now)
       case Ok(s) => Ledger(l.store.Put(s), later, l.lives[id := Extended(LifeOf(l, id), now, later, s.sdna)]))
    case Revocation(id, now) => Ledger(l.store.(revoked := l.store.revoked + {id}), now, l.lives)
    case Restart(now) => Ledger(EMPTY, now, l.lives)
  }

  function LifeOf(l: Ledger, id: string): Life {
    if id in l.lives then l.lives[id] else Life(0, [], 0, [])
  }

  function Extended(life: Life, now: int, later: int, value: Sdna): Life {
    Life(life.interval, life.times + [later], life.lag + (later - now), life.values + [value])
  }

  function Run(l: Ledger, events: seq<Event>): Ledger {
    if events == [] then l else Step(Run(l, events[..|events| - 1]), events[|events| - 1])
  }

  predicate PossibleRun(l: Ledger, events: seq<Event>) {
    events == [] ||
    (PossibleRun(l, events[..|events| - 1]) && Possible(Run(l, events[..|events| - 1]), events[|events| - 1]))
  }

  /** What a stored session owes its life: its generation, its newest value, its times. */
  predicate Follows(s: SessionDna, life: Life) {
    && |life.values| == |life.times| == s.generation + 1
    && s.sdna == life.values[s.generation]
    && s.issuedAt == life.times[s.generation] && s.interval == life.interval
    && s.expiresAt == s.issuedAt + s.interval
    && s.expiresAt <= life.Due(s.generation + 1) + life.lag
  }

  /** Generation by generation, a session's values grow one derivation deeper. */
  predicate Deepens(values: seq<Sdna>) {
    forall g | 0 <= g < |values| :: Depth(values[g]) == g
  }

  ghost predicate LedgerInv(l: Ledger) {
    && (forall id | id in l.store.sessions ::
         id in l.lives && l.store.sessions[id].id == id && Follows(l.store.sessions[id], l.lives[id]))
    && (forall id | id in l.lives :: Deepens(l.lives[id].values) && |l.lives[id].times| == |l.lives[id].values| > 0)
  }

  lemma DueNext(life: Life, n: nat)
    requires life.times != []
    ensures life.Due(n + 1) == life.Due(n) + life.interval
  {
  }

  lemma RotationFollows(s: SessionDna, life: Life, now: int, nonce: Bytes, later: int)
    requires Follows(s, life) && Deepens(life.values) && now < s.expiresAt && now <= later
    ensures var life' := Extended(life, now, later, Rotated(s.sdna, nonce));
      Follows(Rotate(s, nonce, later), life') && Deepens(life'.values)
  {
    var life' := Extended(life, now, later, Rotated(s.sdna, nonce));
    DueNext(life', s.generation + 1);
    assert life'.Due(s.generation + 1) == life.Due(s.generation + 1);
    assert Depth(Rotated(s.sdna, nonce)) == s.generation + 1;
  }

  lemma StepKeepsInv(l: Ledger, e: Event)
    requires LedgerInv(l) && Possible(l, e)
    ensures LedgerInv(Step(l, e)) && l.clock <= Step(l, e).clock
  {
    match e
    case Issue(id, shared, transcriptHash, now, interval) =>
      var s := InitialSdna(id, shared, transcriptHash, now, interval);
      assert Newborn(s, now).Due(1) == now + interval;
    case Renewal(id, presented, now, nonce, later) =>
      if l.store.Refusal(id, presented, now) == None {
        RotationFollows(l.store.sessions[id], l.lives[id], now, nonce, later);
      }
    case _ =>
  }

  lemma {:induction false} RunKeepsInv(l: Ledger, events: seq<Event>)
    requires LedgerInv(l) && PossibleRun(l, events)
    ensures LedgerInv(Run(l, events)) && l.clock <= Run(l, events).clock
  {
    if events != [] {
      RunKeepsInv(l, events[..|events| - 1]);
      StepKeepsInv(Run(l, events[..|events| - 1]), events[|events| - 1]);
    }
  }

  /**
    Only the newest value lives, and not for long: a value validates exactly when
    it is the last its session was given, the session is neither revoked nor gone,
    and its interval is not over. No earlier generation equals it, and the time is
    before birth plus one interval per generation plus the renewals' lag.
  */
  lemma OnlyNewestValidates(l: Ledger, id: string, presented: Sdna, now: int)
    requires LedgerInv(l)
    ensures l.store.Refusal(id, presented, now) == None <==>
      id !in l.store.revoked && id in l.store.sessions && id in l.lives &&
      var life := l.lives[id]; var g := |life.values| - 1;
      g >= 0 && presented == life.values[g] && now < life.times[g] + life.interval
    ensures l.store.Refusal(id, presented, now) == None ==>
      var life, g := l.lives[id], l.store.sessions[id].generation;
      && (forall h | 0 <= h < g :: life.values[h] != presented)
      && now < life.Due(g + 1) + life.lag
  {
    if l.store.Refusal(id, presented, now) == None {
      var life, s := l.lives[id], l.store.sessions[id];
      forall g | 0 <= g < s.generation ensures life.values[g] != presented {
        assert Depth(life.values[g]) == g && Depth(presented) == s.generation;
      }
    }
  }

  // ---- how long a generation lives ---------------------------------------

  /**
    A renewal's new generation is refused from birth plus one interval per
    generation on, if and only if its rotation read the clock no later than birth
    plus one interval per generation before it.
  */
  lemma RenewalLifetime(store: Store, id: string, presented: Sdna, now: int, nonce: Bytes, later: int, birth: int)
    requires id in store.sessions && store.sessions[id].id == id
    requires Renewed(store, id, presented, now, nonce, later).Ok?
    ensures var s := Renewed(store, id, presented, now, nonce, later).value;
      (forall t | t >= birth + (s.generation + 1) * s.interval :: store.Put(s).Refusal(id, s.sdna, t).Some?)
      <==> later <= birth + s.generation * s.interval
  {
    var s := Renewed(store, id, presented, now, nonce, later).value;
    var bound := birth + (s.generation + 1) * s.interval;
    assert bound == birth + s.generation * s.interval + s.interval;
    assert store.Put(s).Refusal(id, s.sdna, bound).Some? <==> later + s.interval <= bound;
  }

  /** From birth plus one interval per generation on, the session is refused whatever is presented. */
  ghost predicate KeepsBound(l: Ledger, id: string) {
    id in l.store.sessions && id in l.lives && l.lives[id].times != [] ==>
      forall value, t | t >= l.lives[id].Due(l.store.sessions[id].generation + 1) ::
        l.store.Refusal(id, value, t).Some?
  }

  /** A stored session keeps the bound exactly when it is revoked or its generation was issued in time. */
  lemma LifetimeIsExact(l: Ledger, id: string)
    requires LedgerInv(l) && id in l.store.sessions
    ensures var life, g := l.lives[id], l.store.sessions[id].generation;
      KeepsBound(l, id) <==> id in l.store.revoked || life.times[g] <= life.Due(g)
  {
    var life, s := l.lives[id], l.store.sessions[id];
    DueNext(life, s.generation);
    var bound := life.Due(s.generation + 1);
    assert id !in l.store.revoked ==> (l.store.Refusal(id, s.sdna, bound).Some? <==> s.expiresAt <= bound);
  }

  /** Every generation so far was issued within its interval after birth. */
  predicate Prompt(life: Life)
    requires life.times != []
  {
    forall g | 0 <= g < |life.times| :: life.times[g] <= life.Due(g)
  }

  predicate PromptIn(l: Ledger, id: string) {
    id in l.lives && l.lives[id].times != [] ==> Prompt(l.lives[id])
  }

  lemma PromptKeepsBound(l: Ledger, id: string)
    requires LedgerInv(l) && PromptIn(l, id)
    ensures KeepsBound(l, id)
  {
    if id in l.store.sessions {
      LifetimeIsExact(l, id);
    }
  }

  lemma PromptExtended(life: Life, now: int, later: int, value: Sdna)
    requires life.times != []
    ensures Prompt(Extended(life, now, later, value)) <==> Prompt(life) && later <= life.Due(|life.times|)
  {
    var life' := Extended(life, now, later, value);
    assert forall g | 0 <= g < |life.times| :: life'.times[g] == life.times[g] && life'.Due(g) == life.Due(g);
    assert life'.times[|life.times|] == later && life'.Due(|life.times|) == life.Due(|life.times|);
  }

  /** One event: the bound and the promptness of the past give the promptness of now, and the other way round. */
  lemma BoundStep(l: Ledger, e: Event, id: string)
    requires LedgerInv(l) && Possible(l, e)
    ensures PromptIn(Step(l, e), id) <==> PromptIn(l, id) && KeepsBound(Step(l, e), id)
  {
    var l' := Step(l, e);
    StepKeepsInv(l, e);
    if id in l'.store.sessions {
      LifetimeIsExact(l', id);
    }
    match e
    case Issue(i, _, _, now, _) =>
      if i == id {
        assert l'.lives[id].Due(0) == now;
      }
    case Renewal(i, presented, now, nonce, later) =>
      if i == id && l.store.Refusal(id, presented, now) == None {
        PromptExtended(l.lives[id], now, later, Rotated(l.store.sessions[id].sdna, nonce));
      }
    case _ =>
  }

  /**
    The unlagged bound, over any possible run: it is kept for a session at every
    moment of the run if and only if every one of its generations was issued within
    one interval per generation after birth.
  */
  lemma {:induction false} BoundOverRun(l: Ledger, events: seq<Event>, id: string)
    requires LedgerInv(l) && PossibleRun(l, events) && id !in l.lives
    ensures (forall n | 0 <= n <= |events| :: KeepsBound(Run(l, events[..n]), id)) <==> PromptIn(Run(l, events), id)
  {
    if events == [] {
      assert events[..0] == [];
    } else {
      var front, last := events[..|events| - 1], events[|events| - 1];
      BoundOverRun(l, front, id);
      RunKeepsInv(l, front);
      BoundStep(Run(l, front), last, id);
      assert events[..|events|] == events;
      assert forall n | 0 <= n <= |front| :: front[..n] == events[..n];
    }
  }

  /**
    The lag is real: a renewal that validates just before expiry and rotates just
    after it leaves a first generation alive at birth plus two intervals.
  */
  lemma RenewalLagExtendsLife()
    ensures var first := Initial([], "");
      var run := [Issue("s", [], "", 0, 300), Renewal("s", first, 299, [], 301)];
      && PossibleRun(Ledger(EMPTY, 0, map[]), run)
      && Run(Ledger(EMPTY, 0, map[]), run).store.Refusal("s", Rotated(first, []), 2 * 300) == None
  {
    var l, first := Ledger(EMPTY, 0, map[]), Initial([], "");
    var issue, renewal := Issue("s", [], "", 0, 300), Renewal("s", first, 299, [], 301);
    assert [issue, renewal][..1] == [issue] && [issue][..0] == [];
    assert Run(l, []) == l;
    assert PossibleRun(l, [issue]) && Run(l, [issue]) == Step(l, issue);
  }

  /** A value that was issued and no longer validates. */
  predicate Dead(l: Ledger, id: string, value: Sdna) {
    id in l.lives && value in l.lives[id].values && l.store.Refusal(id, value, l.clock).Some?
  }

  lemma DeadStep(l: Ledger, e: Event, id: string, value: Sdna)
    requires LedgerInv(l) && Possible(l, e) && Dead(l, id, value)
    ensures Dead(Step(l, e), id, value)
  {
    var life := l.lives[id];
    if e.Renewal? && e.id == id && l.store.Refusal(id, e.presented, e.now) == None {
      assert Depth(Rotated(e.presented, e.nonce)) == |life.values|;
      assert Rotated(e.presented, e.nonce) !in life.values;
    }
  }

  /** Superseded, revoked, expired or lost in a restart: a dead value never validates again. */
  lemma {:induction false} DeadStaysDead(l: Ledger, events: seq<Event>, id: string, value: Sdna)
    requires LedgerInv(l) && PossibleRun(l, events) && Dead(l, id, value)
    ensures Dead(Run(l, events), id, value)
  {
    if events != [] {
      var front, last := events[..|events| - 1], events[|events| - 1];
      DeadStaysDead(l, front, id, value);
      RunKeepsInv(l, front);
      DeadStep(Run(l, front), last, id, value);
    }
  }

  /** A session that was issued and is now revoked or lost. */
  predicate Gone(l: Ledger, id: string) {
    id in l.lives && (id in l.store.revoked || id !in l.store.sessions)
  }

  lemma GoneStep(l: Ledger, e: Event, id: string)
    requires Possible(l, e) && LedgerInv(l) && Gone(l, id)
    ensures Gone(Step(l, e), id)
  {
  }

  lemma GoneIsRefused(l: Ledger, id: string, presented: Sdna, now: int)
    requires Gone(l, id)
    ensures l.store.Refusal(id, presented, now).Some?
  {
  }

  /** Whatever is renewed, revoked or restarted later, a revoked session is refused for ever, whatever is presented. */
  lemma {:induction false} RevokedForever(l: Ledger, id: string, at: int, events: seq<Event>, presented: Sdna, now: int)
    requires LedgerInv(l) && id in l.lives && Possible(l, Revocation(id, at))
    requires PossibleRun(Step(l, Revocation(id, at)), events)
    ensures Gone(Run(Step(l, Revocation(id, at)), events), id)
    ensures Run(Step(l, Revocation(id, at)), events).store.Refusal(id, presented, now).Some?
  {
    var first := Step(l, Revocation(id, at));
    StepKeepsInv(l, Revocation(id, at));
    if events != [] {
      var front, last := events[..|events| - 1], events[|events| - 1];
      RevokedForever(l, id, at, front, presented, now);
      RunKeepsInv(first, front);
      GoneStep(Run(first, front), last, id);
    }
  }
}

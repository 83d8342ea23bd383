/**
  The running service: one gateway over one store, a context object for every
  handshake the process holds, and restarts. It goes where the whole-run model goes.
*/
module Service {
  import opened Prelude
  import opened Attempts
  import opened Gateway
  import opened Handshake
  import opened Json
  import opened Registry
  import opened Scoring
  import opened Storage
  import opened TrustHistories
  import opened TrustLoop
  import opened World
  import Sessions

  // ---- what each event leaves of the state the service holds --------------

  /** The parts of a world that a process and its store hold. */
  ghost predicate Shows(w: World, server: Server, live: set<string>) {
    server == Server(w.tables, w.ledger.store) && live == w.live
  }

  /** One handshake is answered and nothing else moves. */
  ghost predicate Touches(w: World, w': World, hid: string, ctx: Ctx) {
    && w'.attempts.Keys == w.attempts.Keys + {hid} && w'.attempts[hid].ctx == ctx
    && forall h | h in w.attempts && h != hid :: w'.attempts[h] == w.attempts[h]
  }

  lemma HelloShows(p: Platform, w: World, hid: string, msg: Members, r: HelloRandoms)
    requires Possible(p, w, Hello(hid, msg, r))
    ensures var w' := Step(p, w, Hello(hid, msg, r));
      Touches(w, w', hid, HelloStep(w.attempts[hid].ctx, msg, r).0) &&
      Shows(w', Server(w.tables, w.ledger.store), w.live)
  {
  }

  lemma EntropyShows(p: Platform, w: World, hid: string, msg: Members, e: EntropyInput)
    requires Possible(p, w, Entropy(hid, msg, e))
    ensures var w' := Step(p, w, Entropy(hid, msg, e));
      Touches(w, w', hid, EntropyStep(p.config, w.attempts[hid].ctx, msg, e).0) &&
      Shows(w', Server(w.tables, w.ledger.store), w.live)
  {
  }

  lemma ProofShows(p: Platform, w: World, hid: string, msg: Members, i: ProofInput)
    requires Possible(p, w, Event.Proof(hid, msg, i))
    ensures var (ctx', server', _) := ProofStep(p, w.attempts[hid].ctx, Server(w.tables, w.ledger.store), msg, i);
      var w' := Step(p, w, Event.Proof(hid, msg, i));
      Touches(w, w', hid, ctx') && Shows(w', server', w.live)
  {
  }

  /** A gateway with empty caches and no sessions, over whatever the store holds. */
  method Boot(platform: Platform, store: SQLiteStore) returns (gateway: Gateway)
    ensures gateway.platform == platform && gateway.subjects.store == store && gateway.Valid()
    ensures gateway.View() == Server(store.View(), Sessions.EMPTY)
    ensures fresh(gateway) && fresh(gateway.subjects) && fresh(gateway.history) && fresh(gateway.sessions)
  {
    var registry := new PersistentSubjectRegistry(platform.config, store);
    var history := new PersistentTrustHistory(store, platform.config.k);
    var sessions := new Sessions.SessionStore();
    gateway := new Gateway(platform, registry, history, sessions);
  }

  class Process {
    const platform: Platform
    const store: SQLiteStore
    var gateway: Gateway
    var contexts: map<string, HandshakeContext>
    ghost var world: World
    ghost var owned: set<HandshakeContext>

    ghost predicate Valid()
      reads this, store, gateway, gateway.subjects, gateway.subjects.store, gateway.history, gateway.history.store
      reads gateway.sessions, owned
    {
      && gateway.platform == platform && gateway.subjects.store == store && gateway.Valid()
      && Shows(world, gateway.View(), contexts.Keys)
      && (forall h | h in contexts :: contexts[h] in owned)
      && (forall h | h in contexts :: h in world.attempts && contexts[h].View() == world.attempts[h].ctx)
      && (forall h, h' | h in contexts && h' in contexts && h != h' :: contexts[h] != contexts[h'])
    }

    constructor (platform: Platform)
      ensures Valid() && world == START && this.platform == platform
      ensures fresh(Footprint())
    {
      var db := new SQLiteStore();
      var booted := Boot(platform, db);
      this.platform, store, gateway := platform, db, booted;
      contexts, owned := map[], {};
      world := START;
    }

    /** Everything the process may change. */
    ghost function Footprint(): set<object>
      reads this, gateway
    {
      {this, store, gateway.subjects, gateway.history, gateway.sessions} + owned
    }

    method OnOpen(hid: string, ghost next: World)
      requires Valid() && hid !in world.attempts && Touches(world, next, hid, FRESH)
      requires Shows(next, Server(world.tables, world.ledger.store), world.live + {hid})
      modifies this
      ensures Valid() && world == next && gateway == old(gateway)
      ensures fresh(owned - old(owned))
    {
      var ctx := new HandshakeContext();
      assert ctx !in owned;
      contexts := contexts[hid := ctx];
      owned := owned + {ctx};
      world := next;
    }

    method OnHello(hid: string, msg: Members, r: HelloRandoms, ghost next: World)
      requires Valid() && hid in contexts
      requires Touches(world, next, hid, HelloStep(world.attempts[hid].ctx, msg, r).0)
      requires Shows(next, Server(world.tables, world.ledger.store), world.live)
      modifies Footprint()
      ensures Valid() && world == next && gateway == old(gateway) && owned == old(owned)
    {
      var reply := gateway.HandleHello(contexts[hid], msg, r);
      world := next;
    }

    method OnEntropy(hid: string, msg: Members, e: EntropyInput, ghost next: World)
      requires Valid() && hid in contexts && e.Fits(platform.config)
      requires Touches(world, next, hid, EntropyStep(platform.config, world.attempts[hid].ctx, msg, e).0)
      requires Shows(next, Server(world.tables, world.ledger.store), world.live)
      modifies Footprint()
      ensures Valid() && world == next && gateway == old(gateway) && owned == old(owned)
    {
      var reply := gateway.HandleEntropy(contexts[hid], msg, e);
      world := next;
    }

    method OnProof(hid: string, msg: Members, i: ProofInput, ghost next: World)
      requires Valid() && hid in contexts && Prepared(world.attempts[hid])
      requires
        var (ctx, server, _) :=
          ProofStep(platform, world.attempts[hid].ctx, Server(world.tables, world.ledger.store), msg, i);
        Touches(world, next, hid, ctx) && Shows(next, server, world.live)
      modifies Footprint()
      ensures Valid() && world == next && gateway == old(gateway) && owned == old(owned)
    {
      var reply := gateway.HandleProof(contexts[hid], msg, i);
      world := next;
    }

    method OnSession(s: Sessions.Event, ghost next: World)
      requires Valid() && (s.Renewal? || s.Revocation?)
      requires next.attempts == world.attempts && next.live == world.live && next.tables == world.tables
      requires next.ledger.store == Sessions.Step(world.ledger, s).store
      modifies Footprint()
      ensures Valid() && world == next && gateway == old(gateway) && owned == old(owned)
    {
      match s {
        case Renewal(id, presented, now, nonce, later) =>
          var r := Sessions.Renew(gateway.sessions, id, presented, now, nonce, later);
        case Revocation(id, _) =>
          gateway.sessions.Revoke(id);
      }
      world := next;
    }

    /** A new process over the same store: caches, contexts and sessions are gone. */
    method OnRestart(ghost next: World)
      requires Valid() && Shows(next, Server(world.tables, Sessions.EMPTY), {})
      modifies this
      ensures Valid() && world == next && owned == {}
      ensures fresh(gateway) && fresh(gateway.subjects) && fresh(gateway.history) && fresh(gateway.sessions)
    {
      gateway := Boot(platform, store);
      contexts, owned := map[], {};
      world := next;
    }

    method Snapshot() returns (held: Held)
      requires Valid()
      ensures HoldsWorld(platform, held, world)
    {
      var views := map h | h in contexts :: contexts[h].View();
      held := Held(gateway.View(), views, gateway.subjects.baselines, gateway.history.bySubject);
    }

    /** One event, whatever it is. */
    method Handle(ev: Event, ghost next: World)
      requires Valid() && Moves(platform, world, ev, next)
      modifies Footprint()
      ensures Valid() && world == next
      ensures fresh(Footprint() - old(Footprint()))
    {
      match ev
      case Open(hid) => OnOpen(hid, next);
      case Hello(hid, msg, r) =>
        HelloShows(platform, world, hid, msg, r);
        OnHello(hid, msg, r, next);
      case Entropy(hid, msg, e) =>
        EntropyShows(platform, world, hid, msg, e);
        OnEntropy(hid, msg, e, next);
      case Proof(hid, msg, i) =>
        ProofShows(platform, world, hid, msg, i);
        OnProof(hid, msg, i, next);
      case SessionEvent(s) => OnSession(s, next);
      case Restart(now) => OnRestart(next);
    }
  }

  // ---- whole runs --------------------------------------------------------

  /** The event is possible and leads from the one world to the other. */
  ghost predicate Moves(p: Platform, w: World, ev: Event, w': World) {
    Possible(p, w, ev) && w' == Step(p, w, ev)
  }

  ghost predicate MovesAt(p: Platform, events: seq<Event>, worlds: seq<World>, n: nat) {
    n < |events| && n + 1 < |worlds| && Moves(p, worlds[n], events[n], worlds[n + 1])
  }

  /** The worlds that a run goes through. */
  ghost predicate Trace(p: Platform, events: seq<Event>, worlds: seq<World>) {
    && |worlds| == |events| + 1 && worlds[0] == START
    && forall n {:trigger MovesAt(p, events, worlds, n)} | 0 <= n < |events| :: MovesAt(p, events, worlds, n)
  }

  lemma TraceGrows(p: Platform, events: seq<Event>, worlds: seq<World>, ev: Event, w: World)
    requires Trace(p, events, worlds) && Moves(p, worlds[|events|], ev, w)
    ensures Trace(p, events + [ev], worlds + [w])
  {
    var events', worlds' := events + [ev], worlds + [w];
    forall n | 0 <= n < |events'| ensures MovesAt(p, events', worlds', n) {
      if n < |events| {
        assert MovesAt(p, events, worlds, n);
      }
    }
  }

  lemma {:induction false} TraceOf(p: Platform, events: seq<Event>, w: World) returns (worlds: seq<World>)
    requires p.config.Valid() && Reached(p, events, w)
    ensures Trace(p, events, worlds) && worlds[|events|] == w
  {
    if events == [] {
      worlds := [START];
    } else {
      var front, last := events[..|events| - 1], events[|events| - 1];
      assert events == front + [last];
      RunOneMore(p, front, last);
      worlds := TraceOf(p, front, Run(p, front).value);
      TraceGrows(p, front, worlds, last, w);
      worlds := worlds + [w];
    }
  }

  /** What the service holds in the end. */
  datatype Held = Held(server: Server, contexts: map<string, Ctx>, baselines: Baselines, deques: Deques)

  /** It is the world's, and both caches are coherent with the world's tables. */
  ghost predicate HoldsWorld(p: Platform, held: Held, w: World) {
    && Shows(w, held.server, held.contexts.Keys)
    && (forall h | h in held.contexts :: h in w.attempts && held.contexts[h] == w.attempts[h].ctx)
    && (forall s | s in held.baselines :: s in w.tables.subjects && held.baselines[s] == w.tables.subjects[s])
    && Coherent(held.deques, p.config.k, w.tables.history)
  }

  method Advance(p: Platform, process: Process, events: seq<Event>, n: nat, ghost worlds: seq<World>)
    requires Trace(p, events, worlds) && n < |events|
    requires process.Valid() && process.platform == p && process.world == worlds[n]
    modifies process.Footprint()
    ensures process.Valid() && process.world == worlds[n + 1]
    ensures forall o | o in process.Footprint() :: o in old(process.Footprint()) || fresh(o)
  {
    assert MovesAt(p, events, worlds, n);
    process.Handle(events[n], worlds[n + 1]);
  }

  /** The service after the first `n` events of a run. */
  method Follow(p: Platform, events: seq<Event>, n: nat, ghost worlds: seq<World>) returns (process: Process)
    requires Trace(p, events, worlds) && n <= |events|
    ensures process.Valid() && process.platform == p && process.world == worlds[n]
    ensures forall o | o in process.Footprint() :: fresh(o)
  {
    if n == 0 {
      process := new Process(p);
    } else {
      process := Follow(p, events, n - 1, worlds);
      Advance(p, process, events, n - 1, worlds);
    }
  }

  /**
    The service over any run of events, with handshakes interleaved and restarts
    anywhere: its tables, sessions and contexts are those of the whole-run model,
    every cached baseline is the stored one, and every cached deque is the most
    recent window of its subject's log.
  */
  method Serve(p: Platform, events: seq<Event>) returns (held: Held)
    requires p.config.Valid() && Run(p, events).Some?
    ensures HoldsWorld(p, held, Run(p, events).value)
  {
    ghost var worlds := TraceOf(p, events, Run(p, events).value);
    var process := Follow(p, events, |events|, worlds);
    held := process.Snapshot();
  }
}

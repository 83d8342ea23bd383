/** The registry of enrolled baselines: the plain one, and the one that caches the store's rows. */
module Registry {
  import opened Prelude
  import opened Identity
  import opened Storage
  import opened Vectors

  type Baselines = map<string, IdentityVector>

  function Lookup(baselines: Baselines, subject: string): Option<IdentityVector> {
    if subject in baselines then Some(baselines[subject]) else None
  }

  /** `None` is a subject without a baseline. */
  function DistanceTo(baselines: Baselines, subject: string, current: IdentityVector): Option<real> {
    match Lookup(baselines, subject)
    case None => None
    case Some(baseline) => Some(Distance(current.vector, baseline.vector))
  }

  /** An unknown subject is enrolled; a known one drifts. `None` is the exception of a failed drift. */
  function Drifted(c: Config, baselines: Baselines, subject: string, current: IdentityVector, alpha: real)
    : Option<Baselines>
  {
    match Lookup(baselines, subject)
    case None => Some(baselines[subject := current])
    case Some(baseline) =>
      match Updated(c, baseline, current, alpha)
      case None => None
      case Some(updated) => Some(baselines[subject := updated])
  }

  /** A first vector is enrolled as it is; a later one draws the baseline towards itself. Nobody else is touched. */
  lemma DriftedMoves(c: Config, baselines: Baselines, subject: string, current: IdentityVector, alpha: real, d: real)
    requires c.Valid() && 0.0 < alpha < 1.0 && WellFormed(c, current)
    requires subject in baselines ==>
      WellFormed(c, baselines[subject]) && DistanceTo(baselines, subject, current) == Some(d)
    ensures Drifted(c, baselines, subject, current, alpha).Some?
    ensures var after := Drifted(c, baselines, subject, current, alpha).value;
      && after.Keys == baselines.Keys + {subject}
      && (forall other | other in baselines && other != subject :: after[other] == baselines[other])
      && if subject !in baselines then after[subject] == current
         else
           && WellFormed(c, after[subject]) && after[subject].id == baselines[subject].id
           && Distance(after[subject].vector, baselines[subject].vector) <= alpha * d
           && Distance(after[subject].vector, current.vector) <= (1.0 - alpha) * d
  {
    if subject in baselines {
      DistanceRange(current.vector, baselines[subject].vector);
      UpdateIsWellFormed(c, baselines[subject], current, alpha, d);
    }
  }

  class SubjectRegistry {
    const config: Config
    var baselines: Baselines

    constructor (config: Config)
      ensures this.config == config && baselines == map[]
    {
      this.config := config;
      baselines := map[];
    }

    method Enroll(subject: string, iv: IdentityVector)
      modifies this
      ensures baselines == old(baselines)[subject := iv]
    {
      baselines := baselines[subject := iv];
    }

    method HasBaseline(subject: string) returns (known: bool)
      ensures known <==> subject in baselines
    {
      known := subject in baselines;
    }

    method BaselineFor(subject: string) returns (iv: Option<IdentityVector>)
      ensures iv == Lookup(baselines, subject)
    {
      iv := if subject in baselines then Some(baselines[subject]) else None;
    }

    method RelationshipDistance(subject: string, current: IdentityVector) returns (d: Option<real>)
      ensures d == DistanceTo(baselines, subject, current)
    {
      var baseline := BaselineFor(subject);
      d := if baseline.None? then None else Some(Distance(current.vector, baseline.value.vector));
    }

    /** `ok` is false when the blend could not be normalised or digested; nothing has changed then. */
    method UpdateBaselineEwma(subject: string, current: IdentityVector, alpha: real) returns (ok: bool)
      modifies this
      ensures ok <==> Drifted(config, old(baselines), subject, current, alpha).Some?
      ensures baselines ==
        if ok then Drifted(config, old(baselines), subject, current, alpha).value else old(baselines)
    {
      var baseline := BaselineFor(subject);
      if baseline.None? {
        Enroll(subject, current);
        return true;
      }
      var updated := Updated(config, baseline.value, current, alpha);
      ok := updated.Some?;
      if ok {
        baselines := baselines[subject := updated.value];
      }
    }
  }

  class PersistentSubjectRegistry {
    const config: Config
    const store: SQLiteStore
    var baselines: Baselines

    /** Every cached baseline is the stored one. */
    ghost predicate Coherent()
      reads this, store
    {
      baselines.Keys <= store.subjects.Keys && forall s | s in baselines :: baselines[s] == store.subjects[s]
    }

    /** A new process: an empty cache over whatever the store holds. */
    constructor (config: Config, store: SQLiteStore)
      ensures this.config == config && this.store == store && Coherent()
    {
      this.config := config;
      this.store := store;
      baselines := map[];
    }

    method Enroll(subject: string, iv: IdentityVector)
      requires Coherent()
      modifies this, store
      ensures Coherent()
      ensures store.View() == old(store.View()).(subjects := old(store.subjects)[subject := iv])
    {
      baselines := baselines[subject := iv];
      store.PutBaseline(subject, iv.id, iv.vector, iv.digest);
    }

    method HasBaseline(subject: string) returns (known: bool)
      requires Coherent()
      ensures known <==> subject in store.subjects
    {
      if subject in baselines {
        return true;
      }
      var row := store.GetBaseline(subject);
      known := row.Some?;
    }

    method BaselineFor(subject: string) returns (iv: Option<IdentityVector>)
      requires Coherent()
      modifies this
      ensures Coherent()
      ensures iv == Lookup(store.subjects, subject)
    {
      if subject in baselines {
        return Some(baselines[subject]);
      }
      iv := store.GetBaseline(subject);
      if iv.Some? {
        baselines := baselines[subject := iv.value];
      }
    }

    method RelationshipDistance(subject: string, current: IdentityVector) returns (d: Option<real>)
      requires Coherent()
      modifies this
      ensures Coherent()
      ensures d == DistanceTo(store.subjects, subject, current)
    {
      var baseline := BaselineFor(subject);
      d := if baseline.None? then None else Some(Distance(current.vector, baseline.value.vector));
    }

    method UpdateBaselineEwma(subject: string, current: IdentityVector, alpha: real) returns (ok: bool)
      requires Coherent()
      modifies this, store
      ensures Coherent()
      ensures ok <==> Drifted(config, old(store.subjects), subject, current, alpha).Some?
      ensures store.View() == old(store.View()).(subjects :=
        if ok then Drifted(config, old(store.subjects), subject, current, alpha).value else old(store.subjects))
    {
      var baseline := BaselineFor(subject);
      if baseline.None? {
        Enroll(subject, current);
        return true;
      }
      var updated := Updated(config, baseline.value, current, alpha);
      ok := updated.Some?;
      if ok {
        var iv := updated.value;
        baselines := baselines[subject := iv];
        store.PutBaseline(subject, iv.id, iv.vector, iv.digest);
      }
    }
  }

  // ---- the persistent registry refines the plain one ---------------------

  datatype Operation =
    | Enrol(subject: string, iv: IdentityVector)
    | Drift(subject: string, iv: IdentityVector, alpha: real)
    | AskBaseline(subject: string)
    | AskKnown(subject: string)
    | AskDistance(subject: string, iv: IdentityVector)
    | Restart

  datatype Answer = Done(ok: bool) | Known(known: bool) | Baseline(iv: Option<IdentityVector>) | Apart(d: Option<real>)

  /** What an immortal dictionary answers, and how it changes. */
  function Answered(c: Config, baselines: Baselines, op: Operation): (Answer, Baselines) {
    match op
    case Enrol(s, iv) => (Done(true), baselines[s := iv])
    case Drift(s, iv, alpha) =>
      var drifted := Drifted(c, baselines, s, iv, alpha);
      (Done(drifted.Some?), if drifted.Some? then drifted.value else baselines)
    case AskBaseline(s) => (Baseline(Lookup(baselines, s)), baselines)
    case AskKnown(s) => (Known(s in baselines), baselines)
    case AskDistance(s, iv) => (Apart(DistanceTo(baselines, s, iv)), baselines)
    case Restart => (Done(true), baselines)
  }

  /** What it answers to a run, and what it ends with. */
  function Replay(c: Config, operations: seq<Operation>): (seq<Answer>, Baselines) {
    if operations == [] then ([], map[])
    else
      var (answers, baselines) := Replay(c, operations[..|operations| - 1]);
      var (answer, after) := Answered(c, baselines, operations[|operations| - 1]);
      (answers + [answer], after)
  }

  method AskPlain(registry: SubjectRegistry, op: Operation) returns (answer: Answer)
    modifies registry
    ensures (answer, registry.baselines) == Answered(registry.config, old(registry.baselines), op)
  {
    match op
    case Enrol(s, iv) => registry.Enroll(s, iv); answer := Done(true);
    case Drift(s, iv, alpha) => var ok := registry.UpdateBaselineEwma(s, iv, alpha); answer := Done(ok);
    case AskBaseline(s) => var iv := registry.BaselineFor(s); answer := Baseline(iv);
    case AskKnown(s) => var known := registry.HasBaseline(s); answer := Known(known);
    case AskDistance(s, iv) => var d := registry.RelationshipDistance(s, iv); answer := Apart(d);
    case Restart => answer := Done(true);
  }

  method AskPersistent(registry: PersistentSubjectRegistry, op: Operation)
    returns (answer: Answer, next: PersistentSubjectRegistry)
    requires registry.Coherent()
    modifies registry, registry.store
    ensures next.Coherent() && next.store == registry.store && next.config == registry.config
    ensures next == registry || fresh(next)
    ensures (answer, next.store.subjects) == Answered(registry.config, old(registry.store.subjects), op)
  {
    next := registry;
    match op
    case Enrol(s, iv) => registry.Enroll(s, iv); answer := Done(true);
    case Drift(s, iv, alpha) => var ok := registry.UpdateBaselineEwma(s, iv, alpha); answer := Done(ok);
    case AskBaseline(s) => var iv := registry.BaselineFor(s); answer := Baseline(iv);
    case AskKnown(s) => var known := registry.HasBaseline(s); answer := Known(known);
    case AskDistance(s, iv) => var d := registry.RelationshipDistance(s, iv); answer := Apart(d);
    case Restart =>
      next := new PersistentSubjectRegistry(registry.config, registry.store);
      answer := Done(true);
  }

  /**
    Any run of enrolments, drifts, queries and restarts is answered by the cache
    over the store exactly as by a plain registry that never restarts.
  */
  method RunBoth(c: Config, operations: seq<Operation>) returns (plain: seq<Answer>, persistent: seq<Answer>)
    ensures plain == persistent == Replay(c, operations).0
  {
    var memory := new SubjectRegistry(c);
    var store := new SQLiteStore();
    var registry := new PersistentSubjectRegistry(c, store);
    plain, persistent := [], [];
    for i := 0 to |operations|
      invariant fresh(memory) && fresh(store) && fresh(registry)
      invariant registry.Coherent() && registry.store == store && registry.config == memory.config == c
      invariant memory.baselines == store.subjects
      invariant (plain, memory.baselines) == Replay(c, operations[..i]) && persistent == plain
    {
      assert operations[..i + 1][..i] == operations[..i];
      var a := AskPlain(memory, operations[i]);
      var b, next := AskPersistent(registry, operations[i]);
      registry := next;
      plain, persistent := plain + [a], persistent + [b];
    }
    assert operations[..|operations|] == operations;
  }
}

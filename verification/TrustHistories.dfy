/** The per-subject histories: the plain one, and the cache over the store's log. */
module TrustHistories {
  import opened Prelude
  import opened History
  import opened Storage

  type Deques = map<string, seq<bool>>

  function DequeOf(bySubject: Deques, subject: string): seq<bool> {
    if subject in bySubject then bySubject[subject] else []
  }

  function Recorded(bySubject: Deques, k: nat, subject: string, accepted: bool): Deques {
    bySubject[subject := Appended(DequeOf(bySubject, subject), k, accepted)]
  }

  // ---- cache and log -----------------------------------------------------

  /** Every cached deque is the most recent window of its subject's log. */
  ghost predicate Coherent(bySubject: Deques, k: nat, history: seq<Outcome>) {
    forall s | s in bySubject :: bySubject[s] == Window(LogOf(history, s), k)
  }

  /** What `score` leaves behind: the subject is cached, or it has nothing to cache. */
  predicate Warm(bySubject: Deques, k: nat, history: seq<Outcome>, subject: string) {
    subject in bySubject || LogOf(history, subject) == [] || k == 0
  }

  /** A deque started afresh misses what the log remembers, unless it holds one outcome at most. */
  lemma ColdDeque(log: seq<bool>, k: nat, accepted: bool)
    requires log != []
    ensures Appended([], k, accepted) == Window(log + [accepted], k) <==> k <= 1
  {
    if k > 1 {
      assert |Window(log + [accepted], k)| > 1;
    }
  }

  lemma OthersUnchanged(bySubject: Deques, k: nat, history: seq<Outcome>, o: Outcome)
    requires Coherent(bySubject, k, history)
    ensures forall s | s in bySubject && s != o.subject :: bySubject[s] == Window(LogOf(history + [o], s), k)
  {
    forall s | s in bySubject && s != o.subject ensures bySubject[s] == Window(LogOf(history + [o], s), k) {
      LogOfAppended(history, o, s);
    }
  }

  /**
    Recording keeps the cache coherent exactly when the subject is cached, has an
    empty log, or the window holds one outcome at most: on a cold cache the new
    deque misses the outcomes that only the log remembers.
  */
  lemma RecordKeepsCoherence(bySubject: Deques, k: nat, history: seq<Outcome>, subject: string, accepted: bool)
    requires Coherent(bySubject, k, history)
    ensures Coherent(Recorded(bySubject, k, subject, accepted), k, history + [Outcome(subject, accepted)])
       <==> subject in bySubject || LogOf(history, subject) == [] || k <= 1
  {
    var after, o := Recorded(bySubject, k, subject, accepted), Outcome(subject, accepted);
    var log := LogOf(history, subject);
    OthersUnchanged(bySubject, k, history, o);
    LogOfAppended(history, o, subject);
    AppendedIsWindow(log, k, accepted);
    if subject in bySubject || log == [] {
      assert DequeOf(bySubject, subject) == Window(log, k);
    } else {
      ColdDeque(log, k, accepted);
    }
    assert Coherent(after, k, history + [o]) <==> after[subject] == Window(log + [accepted], k);
  }

  /** The deque that a fresh history holds after recording a whole log. */
  function Replayed(log: seq<bool>, k: nat): seq<bool> {
    if log == [] then [] else Appended(Replayed(log[..|log| - 1], k), k, log[|log| - 1])
  }

  /** A bounded deque fed a whole log holds the log's most recent window. */
  lemma {:induction false} ReplayIsWindow(log: seq<bool>, k: nat)
    ensures Replayed(log, k) == Window(log, k)
  {
    if log != [] {
      var front, last := log[..|log| - 1], log[|log| - 1];
      ReplayIsWindow(front, k);
      AppendedIsWindow(front, k, last);
      assert log == front + [last];
    }
  }

  // ---- the classes -------------------------------------------------------

  class TrustHistory {
    const k: nat
    var bySubject: Deques

    constructor (k: nat := K_DEFAULT)
      ensures this.k == k && bySubject == map[]
    {
      this.k := k;
      bySubject := map[];
    }

    method Record(subject: string, accepted: bool)
      modifies this
      ensures bySubject == Recorded(old(bySubject), k, subject, accepted)
    {
      if subject !in bySubject {
        bySubject := bySubject[subject := []];
      }
      bySubject := bySubject[subject := Appended(bySubject[subject], k, accepted)];
    }

    method ScoreOf(subject: string, lam: Decay := LAMBDA_DEFAULT) returns (score: real)
      ensures score == Score(DequeOf(bySubject, subject), lam)
    {
      score := WeightedRecency(DequeOf(bySubject, subject), lam);
    }
  }

  class PersistentTrustHistory {
    const k: nat
    const store: SQLiteStore
    var bySubject: Deques

    ghost predicate Valid()
      reads this, store
    {
      Coherent(bySubject, k, store.history)
    }

    /** A new process: an empty cache over whatever the store holds. */
    constructor (store: SQLiteStore, k: nat := K_DEFAULT)
      ensures this.k == k && this.store == store && bySubject == map[] && Valid()
    {
      this.k := k;
      this.store := store;
      bySubject := map[];
    }

    /** Writes through; keeps the cache coherent when the subject was scored before. */
    method Record(subject: string, accepted: bool)
      modifies this, store
      ensures bySubject == Recorded(old(bySubject), k, subject, accepted)
      ensures store.View() == old(store.View()).(history := old(store.history) + [Outcome(subject, accepted)])
      ensures old(Valid()) && old(Warm(bySubject, k, store.history, subject)) ==> Valid()
    {
      RecordedWarm(bySubject, k, store.history, subject, accepted);
      bySubject := Recorded(bySubject, k, subject, accepted);
      store.RecordHistory(subject, accepted);
    }

    /** Reads through on a miss. */
    method ScoreOf(subject: string, lam: Decay := LAMBDA_DEFAULT) returns (score: real)
      requires Valid()
      modifies this
      ensures Valid() && Warm(bySubject, k, store.history, subject)
      ensures score == Score(Window(LogOf(store.history, subject), k), lam)
    {
      if subject !in bySubject {
        var persisted := store.GetHistory(subject, k);
        if persisted != [] {
          bySubject := bySubject[subject := persisted];
        }
      }
      score := WeightedRecency(DequeOf(bySubject, subject), lam);
    }
  }

  lemma RecordedWarm(bySubject: Deques, k: nat, history: seq<Outcome>, subject: string, accepted: bool)
    ensures Coherent(bySubject, k, history) && Warm(bySubject, k, history, subject) ==>
      Coherent(Recorded(bySubject, k, subject, accepted), k, history + [Outcome(subject, accepted)])
  {
    if Coherent(bySubject, k, history) {
      RecordKeepsCoherence(bySubject, k, history, subject, accepted);
    }
  }

  // ---- the persistent history refines the plain one ----------------------

  /** The gateway scores a subject before it records its outcome. */
  datatype Operation =
    | ScoreThenRecord(subject: string, accepted: bool)
    | ScoreOnly(subject: string)
    | Restart

  /** The score that one immortal set of deques gives, and how it changes. */
  function Answered(k: nat, deques: Deques, op: Operation): (Option<real>, Deques) {
    match op
    case Restart => (None, deques)
    case ScoreOnly(s) => (Some(Score(DequeOf(deques, s), LAMBDA_DEFAULT)), deques)
    case ScoreThenRecord(s, accepted) =>
      (Some(Score(DequeOf(deques, s), LAMBDA_DEFAULT)), Recorded(deques, k, s, accepted))
  }

  /** The scores it gives over a run, and the deques it ends with. */
  function Replay(k: nat, operations: seq<Operation>): (seq<Option<real>>, Deques) {
    if operations == [] then ([], map[])
    else
      var (scores, deques) := Replay(k, operations[..|operations| - 1]);
      var (score, after) := Answered(k, deques, operations[|operations| - 1]);
      (scores + [score], after)
  }

  /** The plain history's deques against the store's log. */
  ghost predicate Mirrors(bySubject: Deques, k: nat, history: seq<Outcome>) {
    forall s :: DequeOf(bySubject, s) == Window(LogOf(history, s), k)
  }

  lemma MirrorAppended(bySubject: Deques, k: nat, history: seq<Outcome>, o: Outcome, s: string)
    requires Mirrors(bySubject, k, history)
    ensures DequeOf(Recorded(bySubject, k, o.subject, o.accepted), s) == Window(LogOf(history + [o], s), k)
  {
    LogOfAppended(history, o, s);
    AppendedIsWindow(LogOf(history, s), k, o.accepted);
    assert DequeOf(bySubject, s) == Window(LogOf(history, s), k);
  }

  lemma RecordKeepsMirror(bySubject: Deques, k: nat, history: seq<Outcome>, subject: string, accepted: bool)
    requires Mirrors(bySubject, k, history)
    ensures Mirrors(Recorded(bySubject, k, subject, accepted), k, history + [Outcome(subject, accepted)])
  {
    forall s {
      MirrorAppended(bySubject, k, history, Outcome(subject, accepted), s);
    }
  }

  method AskPlain(history: TrustHistory, op: Operation) returns (score: Option<real>)
    modifies history
    ensures (score, history.bySubject) == Answered(history.k, old(history.bySubject), op)
  {
    match op
    case Restart => score := None;
    case ScoreOnly(s) =>
      var h := history.ScoreOf(s);
      score := Some(h);
    case ScoreThenRecord(s, accepted) =>
      var h := history.ScoreOf(s);
      score := Some(h);
      history.Record(s, accepted);
  }

  method AskPersistent(history: PersistentTrustHistory, op: Operation, ghost deques: Deques)
    returns (score: Option<real>, next: PersistentTrustHistory)
    requires history.Valid() && Mirrors(deques, history.k, history.store.history)
    modifies history, history.store
    ensures next.Valid() && next.store == history.store && next.k == history.k
    ensures next == history || fresh(next)
    ensures score == Answered(history.k, deques, op).0
    ensures Mirrors(Answered(history.k, deques, op).1, next.k, next.store.history)
  {
    next := history;
    match op
    case Restart =>
      next := new PersistentTrustHistory(history.store, history.k);
      score := None;
    case ScoreOnly(s) =>
      assert DequeOf(deques, s) == Window(LogOf(history.store.history, s), history.k);
      var h := history.ScoreOf(s);
      score := Some(h);
    case ScoreThenRecord(s, accepted) =>
      assert DequeOf(deques, s) == Window(LogOf(history.store.history, s), history.k);
      var h := history.ScoreOf(s);
      score := Some(h);
      RecordKeepsMirror(deques, history.k, history.store.history, s, accepted);
      history.Record(s, accepted);
  }

  /**
    Any run of scores and of scored records, with restarts anywhere, gives the
    scores of a plain history that never restarts.
  */
  method RunBoth(k: nat, operations: seq<Operation>) returns (plain: seq<Option<real>>, persistent: seq<Option<real>>)
    ensures plain == persistent == Replay(k, operations).0
  {
    var memory := new TrustHistory(k);
    var store := new SQLiteStore();
    var history := new PersistentTrustHistory(store, k);
    plain, persistent := [], [];
    for i := 0 to |operations|
      invariant fresh(memory) && fresh(store) && fresh(history)
      invariant history.Valid() && history.store == store && history.k == memory.k == k
      invariant Mirrors(memory.bySubject, k, store.history)
      invariant (plain, memory.bySubject) == Replay(k, operations[..i]) && persistent == plain
    {
      assert operations[..i + 1][..i] == operations[..i];
      var q, next := AskPersistent(history, operations[i], memory.bySubject);
      var p := AskPlain(memory, operations[i]);
      history := next;
      plain, persistent := plain + [p], persistent + [q];
    }
    assert operations[..|operations|] == operations;
  }
}

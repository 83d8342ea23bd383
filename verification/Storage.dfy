/** The two tables that survive a restart, and the store that queries them. */
module Storage {
  import opened Prelude
  import opened History
  import opened Identity
  import opened Vectors

  /** A row of the history table; rows are kept in the order of their ids. */
  datatype Outcome = Outcome(subject: string, accepted: bool)

  datatype Tables = Tables(subjects: map<string, IdentityVector>, history: seq<Outcome>)

  const EMPTY := Tables(map[], [])

  /** A subject's outcomes, oldest first. */
  function LogOf(history: seq<Outcome>, subject: string): seq<bool> {
    if history == [] then []
    else
      var last := history[|history| - 1];
      LogOf(history[..|history| - 1], subject) + (if last.subject == subject then [last.accepted] else [])
  }

  /** `WHERE subject_id = ? ORDER BY id DESC LIMIT ?`. */
  function NewestFirst(history: seq<Outcome>, subject: string, limit: nat): seq<bool> {
    if history == [] || limit == 0 then []
    else
      var last, earlier := history[|history| - 1], history[..|history| - 1];
      if last.subject == subject then [last.accepted] + NewestFirst(earlier, subject, limit - 1)
      else NewestFirst(earlier, subject, limit)
  }

  function Reversed<T>(s: seq<T>): seq<T> {
    if s == [] then [] else Reversed(s[1..]) + [s[0]]
  }

  lemma LogOfAppended(history: seq<Outcome>, o: Outcome, subject: string)
    ensures LogOf(history + [o], subject) ==
      if o.subject == subject then LogOf(history, subject) + [o.accepted] else LogOf(history, subject)
  {
    assert (history + [o])[..|history|] == history;
  }

  /** One more row, newest first, is one more outcome, oldest first. */
  lemma OneMoreRow(rows: seq<bool>, log: seq<bool>, last: bool, limit: nat)
    requires limit > 0 && Reversed(rows) == Window(log, limit - 1)
    ensures Reversed([last] + rows) == Window(log + [last], limit)
  {
    assert ([last] + rows)[1..] == rows;
  }

  lemma LastRow(history: seq<Outcome>, subject: string, limit: nat)
    requires history != [] && limit > 0
    ensures var last, earlier := history[|history| - 1], history[..|history| - 1];
      if last.subject == subject then
        && NewestFirst(history, subject, limit) == [last.accepted] + NewestFirst(earlier, subject, limit - 1)
        && LogOf(history, subject) == LogOf(earlier, subject) + [last.accepted]
      else
        && NewestFirst(history, subject, limit) == NewestFirst(earlier, subject, limit)
        && LogOf(history, subject) == LogOf(earlier, subject)
  {
  }

  /** The limited query, turned round, is the most recent window of the subject's log. */
  lemma {:induction false} QueryIsWindow(history: seq<Outcome>, subject: string, limit: nat)
    ensures Reversed(NewestFirst(history, subject, limit)) == Window(LogOf(history, subject), limit)
  {
    if limit == 0 || history == [] {
      assert NewestFirst(history, subject, limit) == [];
    } else {
      var last, earlier := history[|history| - 1], history[..|history| - 1];
      LastRow(history, subject, limit);
      if last.subject == subject {
        QueryIsWindow(earlier, subject, limit - 1);
        OneMoreRow(NewestFirst(earlier, subject, limit - 1), LogOf(earlier, subject), last.accepted, limit);
      } else {
        QueryIsWindow(earlier, subject, limit);
      }
    }
  }

  class SQLiteStore {
    var subjects: map<string, IdentityVector>
    var history: seq<Outcome>

    /** Opens a database file: a new one is empty, an existing one keeps its rows. */
    constructor (existing: Tables := EMPTY)
      ensures View() == existing
    {
      subjects, history := existing.subjects, existing.history;
    }

    function View(): Tables
      reads this
    {
      Tables(subjects, history)
    }

    method GetBaseline(subject: string) returns (row: Option<IdentityVector>)
      ensures row == if subject in subjects then Some(subjects[subject]) else None
    {
      row := if subject in subjects then Some(subjects[subject]) else None;
    }

    method PutBaseline(subject: string, id: string, vector: Vector, digest: string)
      modifies this
      ensures View() == old(View()).(subjects := old(subjects)[subject := IdentityVector(id, vector, digest)])
    {
      subjects := subjects[subject := IdentityVector(id, vector, digest)];
    }

    method RecordHistory(subject: string, accepted: bool)
      modifies this
      ensures View() == old(View()).(history := old(history) + [Outcome(subject, accepted)])
    {
      history := history + [Outcome(subject, accepted)];
    }

    method GetHistory(subject: string, limit: nat) returns (persisted: seq<bool>)
      ensures persisted == Window(LogOf(history, subject), limit)
    {
      var rows := NewestFirst(history, subject, limit);
      QueryIsWindow(history, subject, limit);
      persisted := Reversed(rows);
    }
  }
}

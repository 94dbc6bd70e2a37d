/**
 One SQLite connection over one object's file, under write-ahead logging.
 `main` is the database file's own bytes (all that shipping reads), `committed`
 adds the log, `working` is what the connection sees, `changes` is
 `total_changes`: it counts rows, never goes back, and is not undone by rollback.
 */
module ObjectStorage {
  import opened Prelude
  import opened ObjectContent

  datatype Db = Db(main: Content, committed: Content, working: Content, open: bool, changes: nat)

  datatype SqlError = NoSuchTable

  predicate DbValid(d: Db) {
    && (!d.open ==> d.working == d.committed)
    && |d.main.alarms| <= 1
    && |d.committed.alarms| <= 1
    && |d.working.alarms| <= 1
  }

  /** A fresh connection over whatever an earlier one left durable. */
  function Reopened(d: Db): Db {
    Db(d.main, d.committed, d.committed, false, 0)
  }

  /** One statement: inside a transaction it touches `working` alone, outside it commits itself. */
  function Executed(d: Db, op: Op): Db {
    var after := ApplyOp(d.working, op);
    d.(working := after, committed := if d.open then d.committed else after,
    changes := d.changes + Changes(d.working, op))
  }

  function AlarmCleared(d: Db): Db {
    var after := d.working.(alarms := []);
    d.(working := after, committed := if d.open then d.committed else after, changes := d.changes + |d.working.alarms|)
  }

  function Committed(d: Db): Db {
    d.(committed := d.working, open := false)
  }

  function RolledBack(d: Db): Db {
    d.(working := d.committed, open := false)
  }

  function Checkpointed(d: Db): Db {
    d.(main := d.committed)
  }

  class SqliteStorage {
    var main: Content
    var committed: Content
    var working: Content
    var open: bool
    var changes: nat

    ghost function View(): Db
      reads this
    {
      Db(main, committed, working, open, changes)
    }

    ghost predicate Valid()
      reads this
    {
      DbValid(View())
    }

    constructor Open(file: Db)
      requires DbValid(file)
      ensures Valid() && View() == Reopened(file)
    {
      main, committed, working, open, changes := file.main, file.committed, file.committed, false, 0;
    }

    method Begin()
      requires Valid() && !open
      modifies this
      ensures Valid() && View() == old(View()).(open := true)
    {
      open := true;
    }

    method Commit()
      requires Valid() && open
      modifies this
      ensures Valid() && View() == Committed(old(View()))
    {
      committed := working;
      open := false;
    }

    method Rollback()
      requires Valid() && open
      modifies this
      ensures Valid() && View() == RolledBack(old(View()))
    {
      working := committed;
      open := false;
    }

    method Checkpoint()
      requires Valid() && !open
      modifies this
      ensures Valid() && View() == Checkpointed(old(View()))
    {
      main := committed;
    }

    /** A row or schema statement issued by the script; the alarm table is out of its reach. A row
        statement reports the rows it affected; one on a table that is not there is an error. */
    method Exec(op: Op) returns (r: Result<nat, SqlError>)
      requires Valid()
      requires !op.SetAlarm? && op != Barrier
      modifies this
      ensures Valid() && View() == Executed(old(View()), op)
      ensures r.Failure? <==> (op.Put? || op.Delete?) && op.table !in old(working).tables
      ensures r.Failure? ==> View() == old(View())
      ensures r.Success? && !IsDdl(op) ==> r.value == changes - old(changes)
    {
      if (op.Put? || op.Delete?) && op.table !in working.tables {
        return Failure(NoSuchTable);
      }
      var affected := Changes(working, op);
      changes := changes + affected;
      working := ApplyOp(working, op);
      if !open {
        committed := working;
      }
      return Success(affected);
    }

    /** Delete every alarm row, then insert one. */
    method SaveAlarm(alarm: Alarm)
      requires Valid()
      modifies this
      ensures Valid() && View() == Executed(old(View()), SetAlarm(alarm))
    {
      ClearAlarm();
      working := working.(alarms := working.alarms + [alarm]);
      changes := changes + 1;
      if !open {
        committed := working;
      }
    }

    method ClearAlarm()
      requires Valid()
      modifies this
      ensures Valid() && View() == AlarmCleared(old(View()))
    {
      changes := changes + |working.alarms|;
      working := working.(alarms := []);
      if !open {
        committed := working;
      }
    }

    /** Reads the first alarm row, which validity makes the only one. */
    method LoadAlarm() returns (alarm: Option<Alarm>)
      requires Valid()
      ensures working.alarms == match alarm { case Some(a) => [a] case None => [] }
    {
      alarm := First(working.alarms);
    }
  }
}

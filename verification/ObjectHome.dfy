/**
 The pinned task's own cells and one guarded dispatch over them. The alarm lives
 in three places (the in-memory cell, the persisted row, the value last handed to
 the registry mirror); `mark` is the counter value the output gate last saw and
 `shipped` the file bytes it last saw, or the durable content at spawn before it
 has run at all.
 */
module ObjectHome {
  import opened Prelude
  import opened ObjectContent
  import opened ObjectStorage

  /** Whether the object has a durable half, and whether an output gate is wired. */
  datatype Config = Config(stored: bool, gated: bool)

  datatype Home = Home(db: Db, cell: Option<Alarm>, mirror: Option<int>, mark: nat, shipped: Content)

  function Due(cell: Option<Alarm>): Option<int> {
    match cell
    case Some(a) => Some(a.dueMs)
    case None => None
  }

  /** Cell, row and mirror tell the same story; without storage there is no row to compare. */
  predicate Agrees(cfg: Config, h: Home) {
    && h.mirror == Due(h.cell)
    && (cfg.stored ==> h.db.working.alarms == match h.cell { case Some(a) => [a] case None => [] })
  }

  predicate HomeValid(cfg: Config, h: Home) {
    DbValid(h.db) && Agrees(cfg, h)
  }

  /** What a fresh task holds over a file: the persisted alarm re-armed and mirrored again. */
  function Spawned(cfg: Config, d: Db): Home {
    var db := Reopened(d);
    var cell := if cfg.stored then First(db.working.alarms) else None;
    Home(db, cell, Due(cell), 0, db.committed)
  }

  function Armed(cfg: Config, h: Home, a: Alarm): Home {
    Home(if cfg.stored then Executed(h.db, SetAlarm(a)) else h.db, Some(a), Some(a.dueMs), h.mark, h.shipped)
  }

  function Disarmed(cfg: Config, h: Home): Home {
    Home(if cfg.stored then AlarmCleared(h.db) else h.db, None, None, h.mark, h.shipped)
  }

  function Resynced(h: Home): Home {
    var cell := First(h.db.working.alarms);
    h.(cell := cell, mirror := Due(cell))
  }

  /** The gate runs when the counter moved since it last ran, and sees the file's own bytes. */
  function Gated(h: Home): Home {
    if h.db.changes == h.mark then h else h.(mark := h.db.changes, shipped := h.db.main)
  }

  /** One operation of a method body. Without storage only the alarm cell is there to touch. */
  function OpRun(cfg: Config, h: Home, op: Op): Home {
    if op.SetAlarm? then Armed(cfg, h, op.alarm)
    else if !cfg.stored then h
    else if op == Barrier then h.(db := Committed(h.db).(open := true))
    else h.(db := Executed(h.db, op))
  }

  function Settled(cfg: Config, h: Home, ok: bool): Home {
    if !cfg.stored then h
    else if ok then h.(db := Committed(h.db))
    else Resynced(h.(db := RolledBack(h.db)))
  }

  function Kept(ops: seq<Op>, ok: bool): seq<Op> {
    if ok then ops else BarrierPrefix(ops)
  }

  /**
   One whole dispatch, stated without its steps: the content takes the operations
   that survive, the counter every row change made on the way, all three alarm homes
   the row that is left, and the gate sees the result if the counter moved at all.
   */
  function Dispatched(cfg: Config, h: Home, ops: seq<Op>, ok: bool): Home {
    if !cfg.stored then
      match LastArming(ops)
      case Some(a) => h.(cell := Some(a), mirror := Some(a.dueMs))
      case None => h
    else
      var content := ApplyAll(h.db.committed, Kept(ops, ok));
      var changes := h.db.changes + ChangesAll(h.db.committed, ops);
      var gate := cfg.gated && changes != h.mark;
      var cell := First(content.alarms);
      Home(Db(content, content, content, false, changes), cell, Due(cell),
           if gate then changes else h.mark,
           if gate then content else h.shipped)
  }

  /** Where a body leaves the home, its transaction still open. */
  predicate BodyDone(cfg: Config, before: Home, h: Home, ops: seq<Op>) {
    && HomeValid(cfg, h) && h.db.open == cfg.stored
    && h.mark == before.mark && h.shipped == before.shipped
    && h.cell == (match LastArming(ops) { case Some(a) => Some(a) case None => before.cell })
    && (!cfg.stored ==> h.db == before.db)
    && (cfg.stored ==>
          && h.db.working == ApplyAll(before.db.committed, ops)
          && h.db.committed == ApplyAll(before.db.committed, BarrierPrefix(ops))
          && h.db.changes == before.db.changes + ChangesAll(before.db.committed, ops))
  }

  function FileFlushed(cfg: Config, h: Home): Home {
    if cfg.stored then h.(db := Checkpointed(h.db)) else h
  }

  function Passed(cfg: Config, h: Home): Home {
    if cfg.stored && cfg.gated then Gated(h) else h
  }

  lemma BodyStarts(cfg: Config, before: Home, h: Home)
    requires HomeValid(cfg, before) && !before.db.open && h == before.(db := before.db.(open := cfg.stored))
    ensures BodyDone(cfg, before, h, [])
  {
  }

  lemma BodyAdvances(cfg: Config, before: Home, h: Home, ops: seq<Op>, n: nat)
    requires n < |ops| && BodyDone(cfg, before, h, ops[..n])
    ensures BodyDone(cfg, before, OpRun(cfg, h, ops[n]), ops[..n + 1])
  {
    ApplyAllStep(before.db.committed, ops, n);
  }

  /** Settling, flushing and gating a finished body gives the whole dispatch. */
  lemma FinishesAsDispatched(cfg: Config, before: Home, h: Home, ops: seq<Op>, ok: bool)
    requires HomeValid(cfg, before) && BodyDone(cfg, before, h, ops)
    ensures Passed(cfg, FileFlushed(cfg, Settled(cfg, h, ok))) == Dispatched(cfg, before, ops, ok)
  {
  }

  lemma DispatchedValid(cfg: Config, before: Home, ops: seq<Op>, ok: bool)
    requires HomeValid(cfg, before) && !before.db.open
    ensures HomeValid(cfg, Dispatched(cfg, before, ops, ok)) && !Dispatched(cfg, before, ops, ok).db.open
  {
    ApplyAllAlarms(before.db.committed, Kept(ops, ok));
  }

  /** One message an object serves: a call's body, or a due alarm's. */
  datatype Job = Job(fromAlarm: bool, ops: seq<Op>, ok: bool)

  function Served(cfg: Config, h: Home, job: Job): Home {
    Dispatched(cfg, if job.fromAlarm then Disarmed(cfg, h) else h, job.ops, job.ok)
  }

  function ServedAll(cfg: Config, h: Home, jobs: seq<Job>): Home {
    if jobs == [] then h
    else Served(cfg, ServedAll(cfg, h, jobs[..|jobs| - 1]), jobs[|jobs| - 1])
  }

  /** The messages a list amounts to: with no alarm armed the timer branch is not there, so an
      alarm's entry is skipped exactly when the cell is empty by then. */
  function Admitted(cfg: Config, h: Home, jobs: seq<Job>): seq<Job> {
    if jobs == [] then []
    else
      var before := Admitted(cfg, h, jobs[..|jobs| - 1]);
      var job := jobs[|jobs| - 1];
      if job.fromAlarm && ServedAll(cfg, h, before).cell.None? then before else before + [job]
  }

  lemma AdmittedStep(cfg: Config, h: Home, jobs: seq<Job>, n: nat)
    requires n < |jobs|
    ensures var before := Admitted(cfg, h, jobs[..n]);
            var home := ServedAll(cfg, h, before);
            && ServedAll(cfg, h, before + [jobs[n]]) == Served(cfg, home, jobs[n])
            && Admitted(cfg, h, jobs[..n + 1])
               == if jobs[n].fromAlarm && home.cell.None? then before else before + [jobs[n]]
  {
    var before := Admitted(cfg, h, jobs[..n]);
    assert jobs[..n + 1][..n] == jobs[..n];
    assert (before + [jobs[n]])[..|before|] == before;
  }

  function CallsOf(jobs: seq<Job>): seq<Job> {
    if jobs == [] then []
    else CallsOf(jobs[..|jobs| - 1]) + (if jobs[|jobs| - 1].fromAlarm then [] else [jobs[|jobs| - 1]])
  }

  /** Whatever alarms come and go, every call is served, once, in order. */
  lemma {:induction false} CallsAreAdmitted(cfg: Config, h: Home, jobs: seq<Job>)
    ensures CallsOf(Admitted(cfg, h, jobs)) == CallsOf(jobs)
    ensures |Admitted(cfg, h, jobs)| <= |jobs|
  {
    if jobs != [] {
      CallsAreAdmitted(cfg, h, jobs[..|jobs| - 1]);
      var before, job := Admitted(cfg, h, jobs[..|jobs| - 1]), jobs[|jobs| - 1];
      assert (before + [job])[..|before|] == before;
    }
  }

  class ObjectTask {
    const cfg: Config
    const storage: SqliteStorage
    var cell: Option<Alarm>
    var mirror: Option<int>
    var mark: nat
    var shipped: Content

    ghost function View(): Home
      reads this, storage
    {
      Home(storage.View(), cell, mirror, mark, shipped)
    }

    ghost predicate Valid()
      reads this, storage
    {
      HomeValid(cfg, View())
    }

    constructor Spawn(cfg: Config, file: Db)
      requires DbValid(file)
      ensures Valid() && fresh(storage)
      ensures this.cfg == cfg && View() == Spawned(cfg, file)
    {
      var connection := new SqliteStorage.Open(file);
      var pending := None;
      if cfg.stored {
        pending := connection.LoadAlarm();
      }
      this.cfg := cfg;
      storage := connection;
      cell, mirror, mark, shipped := pending, Due(pending), 0, file.committed;
    }

    /** The one place both homes of the alarm are written, the mirror told in between. */
    method SetAlarm(alarm: Alarm)
      requires DbValid(storage.View())
      modifies this, storage
      ensures DbValid(storage.View()) && View() == Armed(cfg, old(View()), alarm)
      ensures Agrees(cfg, View())
    {
      if cfg.stored {
        storage.SaveAlarm(alarm);
      }
      mirror := Some(alarm.dueMs);
      cell := Some(alarm);
    }

    /** Drops the alarm everywhere; called the moment it fires. */
    method ClearAlarm()
      requires DbValid(storage.View())
      modifies this, storage
      ensures Valid() && View() == Disarmed(cfg, old(View()))
    {
      cell := None;
      mirror := None;
      if cfg.stored {
        storage.ClearAlarm();
      }
    }

    /** After a rollback the persisted row replaces whatever the failed method armed. */
    method ResyncAlarm()
      requires DbValid(storage.View())
      modifies this
      ensures View() == Resynced(old(View()))
      ensures cfg.stored ==> Valid()
    {
      var persisted := storage.LoadAlarm();
      mirror := Due(persisted);
      cell := persisted;
    }

    method WritesAdvanced() returns (advanced: bool)
      modifies this`mark
      ensures advanced == (storage.changes != old(mark)) && mark == storage.changes
    {
      if storage.changes == mark {
        return false;
      }
      mark := storage.changes;
      return true;
    }

    method RunOp(op: Op)
      requires Valid() && (cfg.stored ==> storage.open)
      modifies this, storage
      ensures Valid() && (cfg.stored ==> storage.open) && View() == OpRun(cfg, old(View()), op)
    {
      match op
      case SetAlarm(alarm) => SetAlarm(alarm);
      case Barrier =>
        if cfg.stored {
          storage.Commit();
          storage.Begin();
        }
      case _ =>
        if cfg.stored {
          var _ := storage.Exec(op);
        }
    }

    method RunBody(ops: seq<Op>)
      requires Valid() && storage.open == cfg.stored
      requires BodyDone(cfg, View(), View(), [])
      modifies this, storage
      ensures BodyDone(cfg, old(View()), View(), ops)
    {
      assert ops[..0] == [] && ops[..|ops|] == ops;
      for i := 0 to |ops|
        invariant BodyDone(cfg, old(View()), View(), ops[..i])
      {
        BodyAdvances(cfg, old(View()), View(), ops, i);
        RunOp(ops[i]);
      }
    }

    /** Commit, or roll back and resync; then checkpoint; then the gate if the counter moved. */
    method Finish(ok: bool)
      requires Valid() && storage.open == cfg.stored
      modifies this, storage
      ensures View() == Passed(cfg, FileFlushed(cfg, Settled(cfg, old(View()), ok)))
    {
      if !cfg.stored {
        return;
      }
      if ok {
        storage.Commit();
      } else {
        storage.Rollback();
        ResyncAlarm();
      }
      storage.Checkpoint();
      if cfg.gated {
        var advanced := WritesAdvanced();
        if advanced {
          shipped := storage.main;
        }
      }
    }

    /**
     Begin, run the body, commit or roll back and resync, checkpoint, pass the gate:
     together exactly `Dispatched`, and the caller hears the body's own verdict.
     */
    method GuardedDispatch(ops: seq<Op>, ok: bool) returns (result: bool)
      requires Valid() && !storage.open
      modifies this, storage
      ensures Valid() && !storage.open
      ensures View() == Dispatched(cfg, old(View()), ops, ok)
      ensures result == ok
    {
      ghost var before := View();
      if cfg.stored {
        storage.Begin();
      }
      ghost var begun := View();
      BodyStarts(cfg, before, begun);
      RunBody(ops);
      assert BodyDone(cfg, before, View(), ops);
      FinishesAsDispatched(cfg, before, View(), ops, ok);
      Finish(ok);
      DispatchedValid(cfg, before, ops, ok);
      result := ok;
    }

    /** A due alarm: cleared from every home, committed on its own, before its body starts. */
    method FireAlarm(ops: seq<Op>, ok: bool)
      requires Valid() && !storage.open && cell.Some?
      modifies this, storage
      ensures Valid() && !storage.open
      ensures View() == Served(cfg, old(View()), Job(true, ops, ok))
    {
      ClearAlarm();
      var _ := GuardedDispatch(ops, ok);
    }

    /** One message: a call is dispatched, an alarm's entry only if one is armed. */
    method ServeOne(job: Job) returns (taken: bool)
      requires Valid() && !storage.open
      modifies this, storage
      ensures Valid() && !storage.open
      ensures taken == (job.fromAlarm ==> old(View()).cell.Some?)
      ensures View() == if taken then Served(cfg, old(View()), job) else old(View())
    {
      if !job.fromAlarm {
        var _ := GuardedDispatch(job.ops, job.ok);
        return true;
      }
      if cell.None? {
        return false;
      }
      FireAlarm(job.ops, job.ok);
      return true;
    }

    /**
     The mailbox loop over the messages it happens to pop: one at a time, each
     finished before the next. A due alarm is one more message, if one is armed.
     */
    method Serve(jobs: seq<Job>) returns (ghost served: seq<Job>)
      requires Valid() && !storage.open
      modifies this, storage
      ensures Valid() && !storage.open
      ensures served == Admitted(cfg, old(View()), jobs) && CallsOf(served) == CallsOf(jobs)
      ensures View() == ServedAll(cfg, old(View()), served)
    {
      served := [];
      for i := 0 to |jobs|
        invariant Valid() && !storage.open
        invariant served == Admitted(cfg, old(View()), jobs[..i])
        invariant View() == ServedAll(cfg, old(View()), served)
      {
        AdmittedStep(cfg, old(View()), jobs, i);
        var taken := ServeOne(jobs[i]);
        if taken {
          served := served + [jobs[i]];
        }
      }
      assert jobs[..|jobs|] == jobs;
      CallsAreAdmitted(cfg, old(View()), jobs);
    }
  }
}

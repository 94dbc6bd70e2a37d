/** Which armings are ever dispatched, over every run with crashes and respawns on one file. */
module ObjectAlarms {
  import opened Prelude
  import opened ObjectContent
  import opened ObjectStorage
  import opened ObjectHome
  import opened ObjectRuns

  function AsRows(alarm: Option<Alarm>): seq<Alarm> {
    match alarm
    case Some(a) => [a]
    case None => []
  }

  predicate Busy(p: Phase) {
    p.Ready? || p.Running?
  }

  function FiredSerials(firings: seq<Firing>): set<nat> {
    set i | 0 <= i < |firings| :: firings[i].alarm.serial
  }

  // ---- The persisted row is the latest committed, unconsumed arming --------------

  lemma {:induction false} ReplayAlarms(c: Content, log: seq<Entry>)
    requires |c.alarms| <= 1
    ensures Replay(c, log).alarms == AsRows(Latest(c, log))
  {
    if log != [] {
      ReplayAlarms(c, log[..|log| - 1]);
      var e := log[|log| - 1];
      ApplyAllAlarms(Base(e.cause, Replay(c, log[..|log| - 1])), Survivors(e));
    }
  }

  ghost predicate FiringsInv(c: Content, s: State) {
    && (forall i | 0 <= i < |s.firings| ::
          s.firings[i].at <= |s.log| && Latest(c, s.log[..s.firings[i].at]) == Some(s.firings[i].alarm))
    && (s.phase.Ready? && s.phase.work.cause.Fired? ==> Latest(c, s.log) == Some(s.phase.work.cause.alarm))
  }

  lemma FiringsShape(cfg: Config, s: State, step: Step)
    ensures var s' := Apply(cfg, s, step);
            && s.log <= s'.log
            && (s'.firings == s.firings ||
                (s'.log == s.log && s.phase.Ready? && s.phase.work.cause.Fired? && s'.phase.Running? &&
                 s'.firings == s.firings + [Firing(s.phase.work.cause.alarm, |s.log|, s.clock)]))
            && (s'.phase.Ready? && s'.phase.work.cause.Fired? ==>
                  || s' == s
                  || (s'.log == s.log && s.phase == s'.phase)
                  || (s'.log == s.log && s.phase.Waiting? && s.home.cell == Some(s'.phase.work.cause.alarm)))
  {
  }

  lemma WaitingCellIsLatest(cfg: Config, c: Content, s: State)
    requires cfg.stored && |c.alarms| <= 1 && HomeInv(cfg, s) && FileInv(c, s) && s.phase.Waiting?
    ensures s.home.cell == Latest(c, s.log)
  {
    ReplayAlarms(c, s.log);
    assert s.home.db.committed.alarms == AsRows(s.home.cell);
  }

  lemma FiringsStep(cfg: Config, c: Content, s: State, step: Step)
    requires cfg.stored && |c.alarms| <= 1 && HomeInv(cfg, s) && FileInv(c, s) && FiringsInv(c, s)
    ensures FiringsInv(c, Apply(cfg, s, step))
  {
    var s' := Apply(cfg, s, step);
    FiringsShape(cfg, s, step);
    forall i | 0 <= i < |s'.firings|
      ensures s'.firings[i].at <= |s'.log| && Latest(c, s'.log[..s'.firings[i].at]) == Some(s'.firings[i].alarm)
    {
      if i < |s.firings| {
        assert s'.firings[i] == s.firings[i];
        assert s'.log[..s.firings[i].at] == s.log[..s.firings[i].at];
      } else {
        assert s.log[..|s.log|] == s.log;
      }
    }
    if s.phase.Waiting? {
      WaitingCellIsLatest(cfg, c, s);
    }
  }

  lemma {:induction false} FiringsAlways(cfg: Config, d: Db, steps: seq<Step>)
    requires InitialFile(d) && cfg.stored
    ensures FiringsInv(d.committed, After(cfg, d, steps))
  {
    if steps != [] {
      var front := steps[..|steps| - 1];
      FiringsAlways(cfg, d, front);
      HomeAlways(cfg, d, front);
      FileAlways(cfg, d, front);
      FiringsStep(cfg, d.committed, After(cfg, d, front), steps[|steps| - 1]);
    }
  }

  /** Every alarm dispatch carries the payload of the latest arming committed before it and not yet consumed. */
  lemma FiringIsLatestArming(cfg: Config, d: Db, steps: seq<Step>)
    requires InitialFile(d) && cfg.stored
    ensures var s := After(cfg, d, steps);
            forall i | 0 <= i < |s.firings| ::
              && s.firings[i].at <= |s.log|
              && Latest(d.committed, s.log[..s.firings[i].at]) == Some(s.firings[i].alarm)
  {
    FiringsAlways(cfg, d, steps);
  }

  // ---- When --------------------------------------------------------------------------

  ghost predicate DueInv(s: State) {
    && (forall i | 0 <= i < |s.firings| :: s.firings[i].alarm.dueMs <= s.firings[i].when <= s.clock)
    && (s.phase.Ready? && s.phase.work.cause.Fired? ==> s.phase.work.cause.alarm.dueMs <= s.clock)
  }

  lemma DueStep(cfg: Config, s: State, step: Step)
    requires DueInv(s)
    ensures DueInv(Apply(cfg, s, step))
  {
  }

  lemma {:induction false} DueAlways(cfg: Config, d: Db, steps: seq<Step>)
    ensures DueInv(After(cfg, d, steps))
  {
    if steps != [] {
      DueAlways(cfg, d, steps[..|steps| - 1]);
      DueStep(cfg, After(cfg, d, steps[..|steps| - 1]), steps[|steps| - 1]);
    }
  }

  /** No alarm is dispatched before it is due, over any run, with or without storage. */
  lemma NeverEarly(cfg: Config, d: Db, steps: seq<Step>)
    ensures var s := After(cfg, d, steps);
            forall i | 0 <= i < |s.firings| :: s.firings[i].alarm.dueMs <= s.firings[i].when
  {
    DueAlways(cfg, d, steps);
  }

  /** A task that waits with an alarm due dispatches that alarm as soon as its timer is looked at. */
  lemma DueAlarmFires(cfg: Config, s: State, now: int, ops: seq<Op>, ok: bool)
    requires s.phase.Waiting? && s.home.cell.Some? && Serials(ops) !! s.used
    requires s.clock <= now && s.home.cell.value.dueMs <= now
    ensures var t := Apply(cfg, Apply(cfg, s, Elapse(now, ops, ok)), Begin);
            && t.phase == Running(Work(Fired(s.home.cell.value), ops, ok), 0)
            && t.firings == s.firings + [Firing(s.home.cell.value, |s.log|, now)]
            && t.home.cell.None? && t.home.mirror.None?
            && (cfg.stored ==> t.home.db.committed.alarms == [] || s.home.db.open)
  {
  }

  /** A persisted alarm past its time is dispatched right after the object is spawned again. */
  lemma PersistedAlarmFiresOnWake(cfg: Config, s: State, now: int, ops: seq<Op>, ok: bool)
    requires cfg.stored && s.phase.Down? && s.home.db.committed.alarms != [] && Serials(ops) !! s.used
    requires s.clock <= now && s.home.db.committed.alarms[0].dueMs <= now
    ensures var t := Apply(cfg, Apply(cfg, Apply(cfg, s, Spawn), Elapse(now, ops, ok)), Begin);
            && t.firings == s.firings + [Firing(s.home.db.committed.alarms[0], |s.log|, now)]
            && t.home.db.committed.alarms == []
  {
    var up := Apply(cfg, s, Spawn);
    assert up.home.cell == Some(s.home.db.committed.alarms[0]) && !up.home.db.open;
    DueAlarmFires(cfg, up, now, ops, ok);
  }

  // ---- At most once --------------------------------------------------------------

  /** Serials of the alarms that could still come due. */
  function Pending(cfg: Config, h: Home): set<nat> {
    (if h.cell.Some? then {h.cell.value.serial} else {}) +
    (if cfg.stored then AlarmSerials(h.db.committed.alarms) + AlarmSerials(h.db.working.alarms) else {})
  }

  ghost predicate OnceInv(cfg: Config, s: State) {
    var fired := FiredSerials(s.firings);
    && Pending(cfg, s.home) <= s.used && fired <= s.used
    && Pending(cfg, s.home) !! fired
    && (Busy(s.phase) ==> Serials(s.phase.work.ops) <= s.used && Serials(s.phase.work.ops) !! fired)
    && (s.phase.Ready? && s.phase.work.cause.Fired? ==>
          var serial := s.phase.work.cause.alarm.serial;
          && Pending(cfg, s.home) == {}
          && serial in s.used && serial !in fired && serial !in Serials(s.phase.work.ops))
    && (forall i, j | 0 <= i < j < |s.firings| :: s.firings[i].alarm.serial != s.firings[j].alarm.serial)
  }

  lemma PendingRun(cfg: Config, h: Home, op: Op)
    ensures Pending(cfg, OpRun(cfg, h, op)) <= Pending(cfg, h) + Serials([op])
  {
    if op.SetAlarm? {
      assert [op][0].alarm.serial in Serials([op]);
    }
  }

  lemma PendingSettled(cfg: Config, h: Home, ok: bool)
    ensures Pending(cfg, Settled(cfg, h, ok)) <= Pending(cfg, h)
  {
  }

  lemma PendingSpawned(cfg: Config, h: Home)
    ensures Pending(cfg, Spawned(cfg, h.db)) <= Pending(cfg, h)
  {
  }

  lemma OnceRun(cfg: Config, s: State)
    requires OnceInv(cfg, s) && Enabled(s, Run)
    ensures OnceInv(cfg, Apply(cfg, s, Run))
  {
    var w, done := s.phase.work, s.phase.done;
    PendingRun(cfg, s.home, w.ops[done]);
    assert Serials([w.ops[done]]) <= Serials(w.ops);
  }

  lemma OnceBegin(cfg: Config, s: State)
    requires OnceInv(cfg, s) && Enabled(s, Begin)
    ensures OnceInv(cfg, Apply(cfg, s, Begin))
  {
  }

  lemma OnceElapse(cfg: Config, s: State, step: Step)
    requires HomeInv(cfg, s) && OnceInv(cfg, s) && Enabled(s, step) && step.Elapse?
    ensures OnceInv(cfg, Apply(cfg, s, step))
  {
  }

  lemma OnceStep(cfg: Config, s: State, step: Step)
    requires HomeInv(cfg, s) && OnceInv(cfg, s)
    ensures OnceInv(cfg, Apply(cfg, s, step))
  {
    if Enabled(s, step) {
      match step
      case Spawn => PendingSpawned(cfg, s.home);
      case Run => OnceRun(cfg, s);
      case Begin => OnceBegin(cfg, s);
      case Elapse(_, _, _) => OnceElapse(cfg, s, step);
      case Settle => PendingSettled(cfg, s.home, s.phase.work.ok);
      case _ =>
    }
  }

  lemma {:induction false} OnceAlways(cfg: Config, d: Db, steps: seq<Step>)
    requires InitialFile(d)
    ensures OnceInv(cfg, After(cfg, d, steps))
  {
    if steps != [] {
      var front := steps[..|steps| - 1];
      OnceAlways(cfg, d, front);
      HomeAlways(cfg, d, front);
      OnceStep(cfg, After(cfg, d, front), steps[|steps| - 1]);
    }
  }

  /** No arming is dispatched twice, however often the process dies and the object is spawned again. */
  lemma AlarmFiresAtMostOnce(cfg: Config, d: Db, steps: seq<Step>)
    requires InitialFile(d)
    ensures var s := After(cfg, d, steps);
            forall i, j | 0 <= i < j < |s.firings| :: s.firings[i].alarm.serial != s.firings[j].alarm.serial
  {
    OnceAlways(cfg, d, steps);
  }

  // ---- Armings that did not survive their method ------------------------------------

  ghost predicate LogInv(c: Content, s: State) {
    && AlarmSerials(c.alarms) <= s.used
    && (forall i | 0 <= i < |s.log| ::
          Serials(s.log[i].ops) <= s.used && Serials(s.log[i].ops) !! AlarmSerials(c.alarms))
    && (forall i, j | 0 <= i < j < |s.log| :: Serials(s.log[i].ops) !! Serials(s.log[j].ops))
    && (Busy(s.phase) ==>
          && Serials(s.phase.work.ops) <= s.used
          && Serials(s.phase.work.ops) !! AlarmSerials(c.alarms)
          && forall i | 0 <= i < |s.log| :: Serials(s.log[i].ops) !! Serials(s.phase.work.ops))
  }

  /** The log grows only by the work in progress, and new work is fresh. */
  lemma LogShape(cfg: Config, s: State, step: Step)
    ensures var s' := Apply(cfg, s, step);
            && s.used <= s'.used
            && (s'.log == s.log || (Busy(s.phase) && !Busy(s'.phase) &&
                                    exists e :: s'.log == s.log + [e] && e.ops == s.phase.work.ops))
            && (Busy(s'.phase) ==>
                  s'.log == s.log &&
                  if Busy(s.phase) then s'.phase.work == s.phase.work
                  else Serials(s'.phase.work.ops) !! s.used && Serials(s'.phase.work.ops) <= s'.used)
  {
  }

  lemma LogStep(cfg: Config, c: Content, s: State, step: Step)
    requires LogInv(c, s)
    ensures LogInv(c, Apply(cfg, s, step))
  {
    LogShape(cfg, s, step);
    var s' := Apply(cfg, s, step);
    if s'.log != s.log {
      var e :| s'.log == s.log + [e] && e.ops == s.phase.work.ops;
      assert forall i | 0 <= i < |s'.log| :: s'.log[i] == if i < |s.log| then s.log[i] else e;
    }
  }

  lemma {:induction false} LogAlways(cfg: Config, d: Db, steps: seq<Step>)
    ensures LogInv(d.committed, After(cfg, d, steps))
  {
    if steps != [] {
      LogAlways(cfg, d, steps[..|steps| - 1]);
      LogStep(cfg, d.committed, After(cfg, d, steps[..|steps| - 1]), steps[|steps| - 1]);
    }
  }

  /** The latest arming was either in the first file or kept by some logged dispatch. */
  lemma {:induction false} LatestWasKept(c: Content, log: seq<Entry>) returns (k: nat)
    requires Latest(c, log).Some?
    ensures k <= |log|
    ensures k == |log| ==> Latest(c, log).value.serial in AlarmSerials(c.alarms)
    ensures k < |log| ==> Latest(c, log).value.serial in Serials(Survivors(log[k]))
  {
    if log == [] {
      assert c.alarms[0].serial in AlarmSerials(c.alarms);
      return 0;
    }
    LastArmingSerial(Survivors(log[|log| - 1]));
    if LastArming(Survivors(log[|log| - 1])).Some? {
      return |log| - 1;
    }
    k := LatestWasKept(c, log[..|log| - 1]);
    if k == |log| - 1 {
      k := |log|;
    }
  }

  /** An arming its dispatch dropped is the latest committed one at no point of the log. */
  lemma DroppedIsNeverLatest(c: Content, s: State, at: nat, i: nat, serial: nat)
    requires LogInv(c, s) && at <= |s.log| && i < |s.log| && Latest(c, s.log[..at]).Some?
    requires serial in Serials(s.log[i].ops) && serial !in Serials(Survivors(s.log[i]))
    ensures Latest(c, s.log[..at]).value.serial != serial
  {
    var k := LatestWasKept(c, s.log[..at]);
    if k < at {
      SurvivorSerials(s.log[k]);
      assert s.log[..at][k] == s.log[k];
      assert k == i || Serials(s.log[k].ops) !! Serials(s.log[i].ops);
    }
  }

  /**
   An alarm set by a method that failed, or was cut short by a crash, is never dispatched,
   unless a barrier in that method had already committed it.
   */
  lemma FailedArmingNeverFires(cfg: Config, d: Db, steps: seq<Step>, i: nat, serial: nat)
    requires InitialFile(d) && cfg.stored
    requires var s := After(cfg, d, steps);
             i < |s.log| && serial in Serials(s.log[i].ops) && serial !in Serials(Survivors(s.log[i]))
    ensures serial !in FiredSerials(After(cfg, d, steps).firings)
  {
    var s := After(cfg, d, steps);
    FiringsAlways(cfg, d, steps);
    LogAlways(cfg, d, steps);
    forall f | 0 <= f < |s.firings| ensures s.firings[f].alarm.serial != serial {
      DroppedIsNeverLatest(d.committed, s, s.firings[f].at, i, serial);
    }
  }

  lemma SurvivorSerials(e: Entry)
    ensures Serials(Survivors(e)) <= Serials(e.ops)
  {
  }
}

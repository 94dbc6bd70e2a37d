/**
 The object task as a machine whose steps are the points it can be interrupted at:
 senders add calls, the loop pops one or lets a due alarm through, and a dispatch
 goes begin, operations, commit or rollback, checkpoint, gate, reply. The process
 may die between any two steps and the object may be spawned again over its file.
 A step that is not enabled changes nothing, so every sequence of steps is a run.
 */
module ObjectRuns {
  import opened Prelude
  import opened ObjectContent
  import opened ObjectStorage
  import opened ObjectHome

  const MAILBOX_DEPTH: nat := 128

  datatype Cause = Call(id: nat) | Fired(alarm: Alarm)

  datatype Work = Work(cause: Cause, ops: seq<Op>, ok: bool)

  datatype Phase =
    | Down
    | Waiting
    | Ready(work: Work)
    | Running(work: Work, done: nat)
    | Closed(work: Work)
    | Flushed(work: Work)
    | Released(work: Work)

  /** How a dispatch ended; `Cut` is death with `done` operations run. */
  datatype Outcome = Succeeded | Failed | Cut(done: nat)

  datatype Entry = Entry(cause: Cause, ops: seq<Op>, outcome: Outcome)

  datatype Answer = Returned(id: nat, ok: bool) | Gone(id: nat)

  /** An alarm dispatch: how many dispatches had been logged when it started, and what time it was. */
  datatype Firing = Firing(alarm: Alarm, at: nat, when: int)

  datatype State = State(
    home: Home,
    phase: Phase,
    mailbox: seq<nat>,
    next: nat,            // calls ever made
    popped: seq<nat>,
    answers: seq<Answer>,
    firings: seq<Firing>,
    used: set<nat>,       // serials of every arming so far
    log: seq<Entry>,
    clock: int,           // the time last looked at
    ddl: bool,            // schema statements kept since the gate last ran or the object spawned
    crashes: nat
  )

  datatype Step =
    | Spawn
    | Send
    | Pop(ops: seq<Op>, ok: bool)
    | Elapse(now: int, ops: seq<Op>, ok: bool)
    | Begin
    | Run
    | Settle
    | Flush
    | Gate
    | Reply
    | Idle
    | Disconnect
    | Crash

  // ---- What a run should amount to -------------------------------------------

  function Base(cause: Cause, c: Content): Content {
    if cause.Fired? then c.(alarms := []) else c
  }

  function Survivors(e: Entry): seq<Op> {
    match e.outcome
    case Succeeded => e.ops
    case Failed => BarrierPrefix(e.ops)
    case Cut(n) => BarrierPrefix(if n <= |e.ops| then e.ops[..n] else e.ops)
  }

  function Effect(c: Content, e: Entry): Content {
    ApplyAll(Base(e.cause, c), Survivors(e))
  }

  function Replay(c: Content, log: seq<Entry>): Content {
    if log == [] then c else Effect(Replay(c, log[..|log| - 1]), log[|log| - 1])
  }

  /** The latest arming that was committed and not consumed by a later firing. */
  function Latest(c: Content, log: seq<Entry>): Option<Alarm> {
    if log == [] then First(c.alarms)
    else
      var e := log[|log| - 1];
      match LastArming(Survivors(e))
      case Some(a) => Some(a)
      case None => if e.cause.Fired? then None else Latest(c, log[..|log| - 1])
  }

  // ---- The machine -------------------------------------------------------------

  function AlarmSerials(alarms: seq<Alarm>): set<nat> {
    set i | 0 <= i < |alarms| :: alarms[i].serial
  }

  function Init(d: Db): State {
    State(Home(d, None, None, 0, d.committed), Down, [], 0, [], [], [],
          AlarmSerials(d.committed.alarms), [], 0, false, 0)
  }

  predicate InitialFile(d: Db) {
    DbValid(d) && !d.open
  }

  function AllGone(ids: seq<nat>): (r: seq<Answer>)
    ensures |r| == |ids| && forall i :: 0 <= i < |r| ==> r[i] == Gone(ids[i])
  {
    seq(|ids|, i requires 0 <= i < |ids| => Gone(ids[i]))
  }

  /** The call being dispatched and not yet answered. */
  function InFlight(p: Phase): seq<nat> {
    if p.Down? || p.Waiting? || p.work.cause.Fired? then [] else [p.work.cause.id]
  }

  predicate Enabled(s: State, step: Step) {
    match step
    case Spawn => s.phase.Down?
    case Send => s.phase.Down? || |s.mailbox| < MAILBOX_DEPTH
    case Pop(ops, _) => s.phase.Waiting? && s.mailbox != [] && Serials(ops) !! s.used
    case Elapse(now, ops, _) =>
      && s.phase.Waiting? && s.home.cell.Some? && Serials(ops) !! s.used
      && s.clock <= now && s.home.cell.value.dueMs <= now
    case Begin => s.phase.Ready?
    case Run => s.phase.Running? && s.phase.done < |s.phase.work.ops|
    case Settle => s.phase.Running? && s.phase.done == |s.phase.work.ops|
    case Flush => s.phase.Closed?
    case Gate => s.phase.Flushed?
    case Reply => s.phase.Released?
    case Idle => s.phase.Waiting? && s.home.cell.None?
    case Disconnect => s.phase.Waiting? && s.mailbox == []
    case Crash => !s.phase.Down?
  }

  function Apply(cfg: Config, s: State, step: Step): State {
    if !Enabled(s, step) then s
    else
      match step
      case Spawn => s.(home := Spawned(cfg, s.home.db), phase := Waiting, ddl := false)
      case Send =>
        if s.phase.Down? then s.(next := s.next + 1, answers := s.answers + [Gone(s.next)])
        else s.(next := s.next + 1, mailbox := s.mailbox + [s.next])
      case Pop(ops, ok) =>
        s.(mailbox := s.mailbox[1..], popped := s.popped + [s.mailbox[0]],
        phase := Ready(Work(Call(s.mailbox[0]), ops, ok)), used := s.used + Serials(ops))
      case Elapse(now, ops, ok) =>
        s.(home := Disarmed(cfg, s.home), clock := now,
        phase := Ready(Work(Fired(s.home.cell.value), ops, ok)), used := s.used + Serials(ops))
      case Begin =>
        s.(home := s.home.(db := s.home.db.(open := cfg.stored)),
        phase := Running(s.phase.work, 0),
        firings := if s.phase.work.cause.Fired?
          then s.firings + [Firing(s.phase.work.cause.alarm, |s.log|, s.clock)] else s.firings)
      case Run =>
        s.(home := OpRun(cfg, s.home, s.phase.work.ops[s.phase.done]),
        phase := Running(s.phase.work, s.phase.done + 1))
      case Settle =>
        var w := s.phase.work;
        s.(home := Settled(cfg, s.home, w.ok), phase := Closed(w),
        log := s.log + [Entry(w.cause, w.ops, if w.ok then Succeeded else Failed)],
        ddl := s.ddl || HasDdl(Kept(w.ops, w.ok)))
      case Flush =>
        s.(home := FileFlushed(cfg, s.home), phase := Flushed(s.phase.work))
      case Gate =>
        var runs := cfg.stored && cfg.gated && s.home.db.changes != s.home.mark;
        s.(home := if runs then Gated(s.home) else s.home, phase := Released(s.phase.work), ddl := s.ddl && !runs)
      case Reply =>
        s.(phase := Waiting,
        answers := if s.phase.work.cause.Call?
          then s.answers + [Returned(s.phase.work.cause.id, s.phase.work.ok)] else s.answers)
      case Idle => s.(phase := Down, mailbox := [], answers := s.answers + AllGone(s.mailbox))
      case Disconnect => s.(phase := Down)
      case Crash =>
        s.(home := s.home.(db := Reopened(s.home.db)), phase := Down, mailbox := [],
        answers := s.answers + AllGone(InFlight(s.phase)) + AllGone(s.mailbox),
        log := match s.phase
          case Ready(w) => s.log + [Entry(w.cause, w.ops, Cut(0))]
          case Running(w, done) => s.log + [Entry(w.cause, w.ops, Cut(done))]
          case _ => s.log,
        crashes := s.crashes + 1)
  }

  function From(cfg: Config, s: State, steps: seq<Step>): State {
    if steps == [] then s
    else Apply(cfg, From(cfg, s, steps[..|steps| - 1]), steps[|steps| - 1])
  }

  function After(cfg: Config, d: Db, steps: seq<Step>): State {
    From(cfg, Init(d), steps)
  }

  // ---- Alarm homes -------------------------------------------------------------

  predicate HomeInv(cfg: Config, s: State) {
    && DbValid(s.home.db)
    && (s.home.db.open <==> cfg.stored && s.phase.Running?)
    && (!s.phase.Down? ==> Agrees(cfg, s.home))
  }

  lemma HomeStep(cfg: Config, s: State, step: Step)
    requires HomeInv(cfg, s)
    ensures HomeInv(cfg, Apply(cfg, s, step))
  {
  }

  lemma {:induction false} HomeAlways(cfg: Config, d: Db, steps: seq<Step>)
    requires InitialFile(d)
    ensures HomeInv(cfg, After(cfg, d, steps))
  {
    if steps != [] {
      HomeAlways(cfg, d, steps[..|steps| - 1]);
      HomeStep(cfg, After(cfg, d, steps[..|steps| - 1]), steps[|steps| - 1]);
    }
  }

  /**
   Whatever has happened, every copy of the file holds at most one alarm row; between
   dispatches the cell, the row and the mirror agree, and the mirror agrees with the
   cell at every instant, storage or not.
   */
  lemma AlarmHomesAgree(cfg: Config, d: Db, steps: seq<Step>)
    requires InitialFile(d)
    ensures var s := After(cfg, d, steps);
            && |s.home.db.main.alarms| <= 1 && |s.home.db.committed.alarms| <= 1
            && (!s.phase.Down? ==> s.home.mirror == Due(s.home.cell))
            && (cfg.stored && s.phase.Waiting? ==>
                  && s.home.db.committed.alarms == match s.home.cell { case Some(a) => [a] case None => [] }
                  && s.home.mirror == Due(First(s.home.db.committed.alarms)))
  {
    HomeAlways(cfg, d, steps);
  }

  /** Hibernation never strands an alarm: a task that idles out leaves none in its file. */
  lemma IdleStrandsNoAlarm(cfg: Config, d: Db, steps: seq<Step>)
    requires InitialFile(d) && cfg.stored
    requires Enabled(After(cfg, d, steps), Idle)
    ensures After(cfg, d, steps + [Idle]).home.db.committed.alarms == []
  {
    HomeAlways(cfg, d, steps);
    assert (steps + [Idle])[..|steps|] == steps;
  }

  // ---- The file is a replay of the log -----------------------------------------

  predicate FileInv(c: Content, s: State) {
    var r := Replay(c, s.log);
    var db := s.home.db;
    && (match s.phase
        case Ready(w) => db.committed == Base(w.cause, r)
        case Running(w, done) =>
          && done <= |w.ops|
          && db.working == ApplyAll(Base(w.cause, r), w.ops[..done])
          && db.committed == ApplyAll(Base(w.cause, r), BarrierPrefix(w.ops[..done]))
        case _ => db.committed == r)
    && (s.phase.Flushed? || s.phase.Released? ==> db.main == db.committed)
  }

  lemma ReplayExtends(c: Content, log: seq<Entry>, e: Entry)
    ensures Replay(c, log + [e]) == Effect(Replay(c, log), e)
    ensures Latest(c, log + [e]) == match LastArming(Survivors(e))
                                    case Some(a) => Some(a)
                                    case None => if e.cause.Fired? then None else Latest(c, log)
  {
  }

  lemma FileRun(cfg: Config, c: Content, s: State)
    requires cfg.stored && HomeInv(cfg, s) && FileInv(c, s) && Enabled(s, Run)
    ensures FileInv(c, Apply(cfg, s, Run))
  {
    var w, done := s.phase.work, s.phase.done;
    ApplyAllStep(Base(w.cause, Replay(c, s.log)), w.ops, done);
    assert s.home.db.open;
    var s' := Apply(cfg, s, Run);
    assert s'.home.db.working == ApplyOp(s.home.db.working, w.ops[done]);
  }

  lemma FileSettle(cfg: Config, c: Content, s: State)
    requires cfg.stored && HomeInv(cfg, s) && FileInv(c, s) && Enabled(s, Settle)
    ensures FileInv(c, Apply(cfg, s, Settle))
  {
    var w := s.phase.work;
    assert w.ops[..|w.ops|] == w.ops;
    ReplayExtends(c, s.log, Entry(w.cause, w.ops, if w.ok then Succeeded else Failed));
  }

  lemma FileCrash(cfg: Config, c: Content, s: State)
    requires cfg.stored && HomeInv(cfg, s) && FileInv(c, s) && Enabled(s, Crash)
    ensures FileInv(c, Apply(cfg, s, Crash))
  {
  }

  lemma FileStep(cfg: Config, c: Content, s: State, step: Step)
    requires cfg.stored && HomeInv(cfg, s) && FileInv(c, s)
    ensures FileInv(c, Apply(cfg, s, step))
  {
    if !Enabled(s, step) {
    } else if step.Run? {
      FileRun(cfg, c, s);
    } else if step.Settle? {
      FileSettle(cfg, c, s);
    } else if step.Crash? {
      FileCrash(cfg, c, s);
    } else if step.Begin? {
      assert s.phase.work.ops[..0] == [];
    }
  }

  lemma {:induction false} FileAlways(cfg: Config, d: Db, steps: seq<Step>)
    requires InitialFile(d) && cfg.stored
    ensures FileInv(d.committed, After(cfg, d, steps))
  {
    if steps != [] {
      var front := steps[..|steps| - 1];
      FileAlways(cfg, d, front);
      HomeAlways(cfg, d, front);
      FileStep(cfg, d.committed, After(cfg, d, front), steps[|steps| - 1]);
    }
  }

  /**
   For every interleaving of senders, alarms, crashes and respawns: whenever no body is
   running, the durable content is the left fold of the logged dispatches over the
   first content, and at every reply the file's own bytes have caught up with it.
   */
  lemma FileIsReplay(cfg: Config, d: Db, steps: seq<Step>)
    requires InitialFile(d) && cfg.stored
    ensures var s := After(cfg, d, steps);
            && (!s.phase.Ready? && !s.phase.Running? ==> s.home.db.committed == Replay(d.committed, s.log))
            && (s.phase.Released? ==> s.home.db.main == Replay(d.committed, s.log))
  {
    FileAlways(cfg, d, steps);
  }

  /** Operations that do nothing to any content. */
  predicate OnlyBarriers(ops: seq<Op>) {
    forall i | 0 <= i < |ops| :: ops[i] == Barrier
  }

  /** A content that ends up different when the last operation is not a barrier, whatever came before it. */
  function Disturbed(op: Op): Content
    requires op != Barrier
  {
    match op
    case CreateTable(_) => Content(map[], [])
    case DropTable(t) => Content(map[t := map[]], [])
    case Put(t, _, _) => Content(map[t := map[]], [])
    case Delete(t, k) => Content(map[t := map[k := ""]], [])
    case SetAlarm(_) => Content(map[], [])
  }

  lemma {:induction false} BarriersAreIdentity(c: Content, ops: seq<Op>)
    requires OnlyBarriers(ops)
    ensures ApplyAll(c, ops) == c
  {
    if ops != [] {
      BarriersAreIdentity(c, ops[..|ops| - 1]);
    }
  }

  lemma LastOpShows(c: Content, op: Op, before: Content)
    requires op != Barrier && c == Disturbed(op)
    ensures ApplyOp(before, op) != c
  {
    var after := ApplyOp(before, op);
    match op
    case CreateTable(t) => assert t in after.tables && t !in c.tables;
    case DropTable(t) => assert t !in after.tables && t in c.tables;
    case Put(t, k, _) => assert t in c.tables && k !in c.tables[t] && (t in after.tables ==> k in after.tables[t]);
    case Delete(t, k) => assert t in c.tables && k in c.tables[t] && (t in after.tables ==> k !in after.tables[t]);
    case SetAlarm(_) => assert |after.alarms| == 1;
  }

  /** A list that holds more than barriers changes some content without an alarm row. */
  lemma {:induction false} OthersDisturb(ops: seq<Op>) returns (c: Content)
    requires !OnlyBarriers(ops)
    ensures c.alarms == [] && ApplyAll(c, ops) != c
  {
    var front, op := ops[..|ops| - 1], ops[|ops| - 1];
    if op == Barrier {
      c := OthersDisturb(front);
    } else {
      c := Disturbed(op);
      LastOpShows(c, op, ApplyAll(c, front));
    }
  }

  /**
   An Ok body applies all of itself. A failed or interrupted one leaves every content as it
   found it (but for the alarm that fired) if and only if what it had committed on the way
   holds nothing but barriers; in particular when it ran no barrier.
   */
  lemma FailureAppliesNothing(e: Entry)
    ensures e.outcome.Succeeded? ==> forall c :: Effect(c, e) == ApplyAll(Base(e.cause, c), e.ops)
    ensures !e.outcome.Succeeded? ==>
              ((forall c :: Effect(c, e) == Base(e.cause, c)) <==> OnlyBarriers(Survivors(e)))
    ensures !e.outcome.Succeeded? && Barrier !in e.ops ==> Survivors(e) == []
  {
    if OnlyBarriers(Survivors(e)) {
      forall c ensures Effect(c, e) == Base(e.cause, c) {
        BarriersAreIdentity(Base(e.cause, c), Survivors(e));
      }
    } else {
      var c := OthersDisturb(Survivors(e));
      assert Base(e.cause, c) == c;
    }
  }

  /** A successful body leaves in every cell the last word it had on it, and nothing else. */
  lemma OkBodyWrites(c: Content, e: Entry, table: string, key: string)
    requires e.outcome.Succeeded?
    ensures Cell(Effect(c, e), table, key) == CellLeft(Cell(c, table, key), table in c.tables, e.ops, table, key)
    ensures table in Effect(c, e).tables <==> TableLeft(table in c.tables, e.ops, table)
  {
    BodyMeaning(Base(e.cause, c), e.ops, table, key);
  }

  /** A failed body that left a row behind: its write, then a commit in the middle, then an error. */
  lemma FailedBodyLeavesItsRow(cfg: Config, h: Home)
    requires cfg.stored && cfg.gated && HomeValid(cfg, h) && !h.db.open && h.mark == h.db.changes
    requires h.db.committed.tables == map["t" := map[]]
    ensures var after := Dispatched(cfg, h, [Put("t", "k", "v"), Barrier], false);
            && after.db.committed == Effect(h.db.committed, Entry(Call(0), [Put("t", "k", "v"), Barrier], Failed))
            && after.db.committed.tables == map["t" := map["k" := "v"]] && after.shipped == after.db.committed
  {
    var ops := [Put("t", "k", "v"), Barrier];
    assert ops[..1] == [Put("t", "k", "v")] && [Put("t", "k", "v")][..0] == [];
    assert ApplyAll(h.db.committed, ops[..1]) == ApplyOp(ApplyAll(h.db.committed, []), ops[0]);
    assert ChangesAll(h.db.committed, ops[..1]) == 1;
    assert BarrierPrefix(ops) == ops;
  }

  // ---- One dispatch, uninterrupted ----------------------------------------------

  function Body(n: nat): seq<Step> {
    if n == 0 then [Begin] else Body(n - 1) + [Run]
  }

  lemma FromStep(cfg: Config, s: State, steps: seq<Step>, step: Step)
    ensures From(cfg, s, steps + [step]) == Apply(cfg, From(cfg, s, steps), step)
  {
  }

  lemma BeginStep(cfg: Config, s: State)
    requires s.phase.Ready?
    ensures Apply(cfg, s, Begin).phase == Running(s.phase.work, 0)
    ensures Apply(cfg, s, Begin).home == s.home.(db := s.home.db.(open := cfg.stored))
  {
  }

  lemma RunStep(cfg: Config, s: State)
    requires s.phase.Running? && s.phase.done < |s.phase.work.ops|
    ensures Apply(cfg, s, Run).phase == Running(s.phase.work, s.phase.done + 1)
    ensures Apply(cfg, s, Run).home == OpRun(cfg, s.home, s.phase.work.ops[s.phase.done])
  {
  }

  lemma {:induction false} BodyRuns(cfg: Config, s: State, n: nat)
    requires HomeInv(cfg, s) && s.phase.Ready? && n <= |s.phase.work.ops|
    ensures var t := From(cfg, s, Body(n));
            t.phase == Running(s.phase.work, n) && BodyDone(cfg, s.home, t.home, s.phase.work.ops[..n])
  {
    if n == 0 {
      FromStep(cfg, s, [], Begin);
      assert [] + [Begin] == [Begin];
      BeginStep(cfg, s);
      BodyStarts(cfg, s.home, Apply(cfg, s, Begin).home);
    } else {
      BodyRuns(cfg, s, n - 1);
      FromStep(cfg, s, Body(n - 1), Run);
      RunStep(cfg, From(cfg, s, Body(n - 1)));
      BodyAdvances(cfg, s.home, From(cfg, s, Body(n - 1)).home, s.phase.work.ops, n - 1);
    }
  }

  lemma FinishSteps(cfg: Config, t: State)
    requires t.phase.Running? && t.phase.done == |t.phase.work.ops|
    ensures var u := Apply(cfg, Apply(cfg, Apply(cfg, t, Settle), Flush), Gate);
            && u.phase == Released(t.phase.work)
            && u.home == Passed(cfg, FileFlushed(cfg, Settled(cfg, t.home, t.phase.work.ok)))
  {
  }

  /** The steps of one dispatch, run without interruption, are the dispatch `ObjectTask.GuardedDispatch` performs. */
  lemma UninterruptedDispatch(cfg: Config, s: State)
    requires HomeInv(cfg, s) && s.phase.Ready?
    ensures var w := s.phase.work;
            var t := From(cfg, s, Body(|w.ops|) + [Settle] + [Flush] + [Gate]);
            t.phase == Released(w) && t.home == Dispatched(cfg, s.home, w.ops, w.ok)
  {
    var w := s.phase.work;
    var steps := Body(|w.ops|);
    var t := From(cfg, s, steps);
    BodyRuns(cfg, s, |w.ops|);
    assert w.ops[..|w.ops|] == w.ops;
    FromStep(cfg, s, steps, Settle);
    FromStep(cfg, s, steps + [Settle], Flush);
    FromStep(cfg, s, steps + [Settle] + [Flush], Gate);
    FinishSteps(cfg, t);
    FinishesAsDispatched(cfg, s.home, t.home, w.ops, w.ok);
  }

  /** The entries a served list of jobs would log; which alarm came due does not matter to the content. */
  function Entries(jobs: seq<Job>, alarm: Alarm): seq<Entry> {
    if jobs == [] then []
    else
      var job := jobs[|jobs| - 1];
      Entries(jobs[..|jobs| - 1], alarm) +
      [Entry(if job.fromAlarm then Fired(alarm) else Call(|jobs| - 1), job.ops, if job.ok then Succeeded else Failed)]
  }

  /** The mailbox loop leaves the object's file at the replay of what it served. */
  lemma {:induction false} ServedIsReplay(cfg: Config, h: Home, jobs: seq<Job>, alarm: Alarm)
    requires cfg.stored && DbValid(h.db) && !h.db.open
    ensures var after := ServedAll(cfg, h, jobs);
            && !after.db.open && after.db.working == after.db.committed
            && after.db.committed == Replay(h.db.committed, Entries(jobs, alarm))
            && (jobs != [] ==> after.db.main == after.db.committed)
  {
    if jobs != [] {
      var front := jobs[..|jobs| - 1];
      ServedIsReplay(cfg, h, front, alarm);
      var entries := Entries(jobs, alarm);
      ReplayExtends(h.db.committed, Entries(front, alarm), entries[|entries| - 1]);
    }
  }

  // ---- The output gate ---------------------------------------------------------

  predicate GateInv(s: State) {
    var h := s.home;
    s.phase.Down? ||
    (&& h.mark <= h.db.changes
     && (s.phase.Waiting? || s.phase.Released? ==> h.mark == h.db.changes)
     && (h.mark == h.db.changes && !s.ddl ==>
           match s.phase
           case Running(w, done) =>
             && done <= |w.ops|
             && (!HasDdl(BarrierPrefix(w.ops[..done])) ==> h.db.committed == h.shipped)
             && (!HasDdl(w.ops[..done]) ==> h.db.working == h.shipped)
           case _ => h.db.committed == h.shipped))
  }

  lemma HasDdlStep(ops: seq<Op>, n: nat)
    requires n < |ops|
    ensures HasDdl(ops[..n + 1]) <==> HasDdl(ops[..n]) || IsDdl(ops[n])
  {
  }

  lemma BarrierPrefixStep(ops: seq<Op>, n: nat)
    requires n < |ops|
    ensures BarrierPrefix(ops[..n + 1]) == if ops[n] == Barrier then ops[..n + 1] else BarrierPrefix(ops[..n])
  {
    assert ops[..n + 1][..n] == ops[..n];
  }

  lemma OpRunShape(cfg: Config, h: Home, op: Op)
    requires cfg.stored && h.db.open
    ensures var h' := OpRun(cfg, h, op);
            && h'.mark == h.mark && h'.shipped == h.shipped
            && h'.db.changes == h.db.changes + Changes(h.db.working, op)
            && h'.db.committed == (if op == Barrier then h.db.working else h.db.committed)
            && (Changes(h.db.working, op) == 0 && !IsDdl(op) ==> h'.db.working == h.db.working)
  {
    if Changes(h.db.working, op) == 0 && !IsDdl(op) {
      QuietOpIsIdentity(h.db.working, op);
    }
  }

  /** The uncounted part of a body, one operation further. */
  lemma UnseenStep(h: Home, h': Home, ops: seq<Op>, n: nat)
    requires n < |ops| && h'.shipped == h.shipped
    requires h'.db.committed == if ops[n] == Barrier then h.db.working else h.db.committed
    requires !IsDdl(ops[n]) ==> h'.db.working == h.db.working
    requires !HasDdl(BarrierPrefix(ops[..n])) ==> h.db.committed == h.shipped
    requires !HasDdl(ops[..n]) ==> h.db.working == h.shipped
    ensures !HasDdl(BarrierPrefix(ops[..n + 1])) ==> h'.db.committed == h'.shipped
    ensures !HasDdl(ops[..n + 1]) ==> h'.db.working == h'.shipped
  {
    BarrierPrefixStep(ops, n);
    HasDdlStep(ops, n);
  }

  lemma GateRun(cfg: Config, s: State)
    requires cfg.stored && s.home.db.open && GateInv(s) && Enabled(s, Run)
    ensures GateInv(Apply(cfg, s, Run))
  {
    var w, done := s.phase.work, s.phase.done;
    var s' := Apply(cfg, s, Run);
    RunStep(cfg, s);
    OpRunShape(cfg, s.home, w.ops[done]);
    assert s'.ddl == s.ddl;
    if s'.home.mark == s'.home.db.changes && !s.ddl {
      UnseenStep(s.home, s'.home, w.ops, done);
    }
  }

  lemma GateStep(cfg: Config, c: Content, s: State, step: Step)
    requires cfg.stored && cfg.gated && HomeInv(cfg, s) && FileInv(c, s) && GateInv(s)
    ensures GateInv(Apply(cfg, s, step))
  {
    if Enabled(s, step) && step.Run? {
      GateRun(cfg, s);
    } else if Enabled(s, step) && step.Settle? {
      assert s.phase.work.ops[..|s.phase.work.ops|] == s.phase.work.ops;
    }
  }

  lemma {:induction false} GateAlways(cfg: Config, d: Db, steps: seq<Step>)
    requires InitialFile(d) && cfg.stored && cfg.gated
    ensures GateInv(After(cfg, d, steps))
  {
    if steps != [] {
      var front := steps[..|steps| - 1];
      GateAlways(cfg, d, front);
      HomeAlways(cfg, d, front);
      FileAlways(cfg, d, front);
      GateStep(cfg, d.committed, After(cfg, d, front), steps[|steps| - 1]);
    }
  }

  /**
   At every reply the counter has been seen by the gate, and unless a schema statement was
   kept since it last ran, what it last saw is the committed content in the file's own
   bytes: every row, the alarm row included, and rolled-back writes excluded.
   */
  lemma GateSawEveryRow(cfg: Config, d: Db, steps: seq<Step>)
    requires InitialFile(d) && cfg.stored && cfg.gated
    ensures var s := After(cfg, d, steps);
            s.phase.Released? ==>
              && s.home.mark == s.home.db.changes
              && s.home.db.main == s.home.db.committed
              && (!s.ddl ==> s.home.shipped == s.home.db.main)
  {
    GateAlways(cfg, d, steps);
    FileAlways(cfg, d, steps);
  }

  /**
   The gate is blind to schema statements. From a synced home, a dispatch leaves the gate's
   view stale exactly when it counted no change and yet what survived of it changed the
   content; then a schema statement survived.
   */
  lemma GateMissesExactlyDdl(cfg: Config, h: Home, ops: seq<Op>, ok: bool)
    requires cfg.stored && cfg.gated && HomeValid(cfg, h) && !h.db.open
    requires h.mark == h.db.changes && h.shipped == h.db.committed
    ensures var after := Dispatched(cfg, h, ops, ok);
            && (after.shipped != after.db.main <==>
                  ChangesAll(h.db.committed, ops) == 0 && ApplyAll(h.db.committed, Kept(ops, ok)) != h.db.committed)
            && (after.shipped != after.db.main ==> HasDdl(Kept(ops, ok)))
  {
    var kept := Kept(ops, ok);
    if ChangesAll(h.db.committed, ops) == 0 && !HasDdl(kept) {
      ChangesPrefix(h.db.committed, ops, |kept|);
      assert kept == ops[..|kept|];
      UncountedIsIdentity(h.db.committed, kept);
    }
  }

  lemma {:induction false} ChangesPrefix(c: Content, ops: seq<Op>, n: nat)
    requires n <= |ops|
    ensures ChangesAll(c, ops[..n]) <= ChangesAll(c, ops)
    decreases |ops| - n
  {
    if n == |ops| {
      assert ops[..n] == ops;
    } else {
      ApplyAllStep(c, ops, n);
      ChangesPrefix(c, ops, n + 1);
    }
  }

  /** Dropping a table with rows in it answers its caller while the shipped bytes still hold them. */
  lemma DroppedTableIsNotShipped(cfg: Config, h: Home)
    requires cfg.stored && cfg.gated && HomeValid(cfg, h) && !h.db.open
    requires h.mark == h.db.changes && h.shipped == h.db.committed
    requires h.db.committed.tables == map["t" := map["k" := "v"]]
    ensures var after := Dispatched(cfg, h, [DropTable("t")], true);
            "t" in after.shipped.tables && "t" !in after.db.committed.tables
  {
    var ops := [DropTable("t")];
    assert ops[..0] == [];
    assert ApplyAll(h.db.committed, ops) == ApplyOp(h.db.committed, ops[0]);
    assert ChangesAll(h.db.committed, ops) == 0;
  }
}

/**
 What an answered call is worth once its worker is gone: when the store holds what the caller
 was told, for how long, and what the next worker starts from.
 */
module Failover {
  import opened ObjectContent
  import opened ObjectStore
  import opened Registry
  import opened Hosting
  import opened HostingRuns
  import O = ObjectRuns
  import C = Cluster
  import Fence

  /** No upload of the object from this epoch on. */
  predicate OnlyOlderShips(steps: seq<C.Step>, o: ObjectId, epoch: nat) {
    forall i | 0 <= i < |steps| && (steps[i].Ship? || steps[i].Tear?) && steps[i].task.objectId == o ::
      steps[i].task.epoch < epoch
  }

  /** Whatever else happens, and however often ex-holders upload, a snapshot stands until its own
      epoch or a newer one ships. */
  lemma {:induction false} SnapshotStands(ttl: nat, k: C.State, steps: seq<C.Step>, o: ObjectId)
    requires o in k.store.manifests && o in k.store.snapshots && OnlyOlderShips(steps, o, k.store.manifests[o])
    ensures var t := C.From(ttl, k, steps);
            && o in t.store.manifests && t.store.manifests[o] == k.store.manifests[o]
            && o in t.store.snapshots && t.store.snapshots[o] == k.store.snapshots[o]
  {
    if steps != [] {
      SnapshotStands(ttl, k, steps[..|steps| - 1], o);
      Fence.StoreShape(ttl, C.From(ttl, k, steps[..|steps| - 1]), steps[|steps| - 1]);
    }
  }

  // ---- When the store holds what a caller is told ---------------------------------------

  /**
   Whether the store holds the bytes worker `w`'s gate last saw (or its spawn found), one step on.
   Its spawn: the file it finds equals the stored snapshot. Its own gate: the upload lands, or
   what was refused or failed is stored already. Another worker's upload that lands: it carries
   the very bytes `w`'s gate last saw. No other step changes the matter.
   */
  predicate InStepAfter(ttl: nat, o: ObjectId, s: State, step: Step, w: C.Worker, before: bool) {
    if step == Visit(w) && Spawns(ttl, s, o, w) then
      C.SpawnFile(s.cluster, w, o) == Held(s.cluster, o)
    else if Gates(s, step) && step.worker == w then
      Lands(o, s, step) || s.hosts[w].run.home.db.main == Held(s.cluster, o)
    else if Gates(s, step) && Lands(o, s, step) then
      w in s.hosts && s.hosts[step.worker].run.home.db.main == s.hosts[w].run.home.shipped
    else before
  }

  predicate InStep(ttl: nat, o: ObjectId, steps: seq<Step>, w: C.Worker) {
    if steps == [] then false
    else
      var front, step := steps[..|steps| - 1], steps[|steps| - 1];
      InStepAfter(ttl, o, After(ttl, o, front), step, w, InStep(ttl, o, front, w))
  }

  /** The task is up, and the store holds the bytes its gate last saw. */
  predicate Meets(o: ObjectId, s: State, w: C.Worker) {
    Resident(s, w) && Held(s.cluster, o) == s.hosts[w].run.home.shipped
  }

  lemma MeetsAfter(ttl: nat, o: ObjectId, s: State, step: Step, s': State, w: C.Worker, before: bool)
    requires Shape(ttl, o, s, step, s') && (Resident(s, w) ==> (before <==> Meets(o, s, w)))
    ensures Resident(s', w) ==> (InStepAfter(ttl, o, s, step, w, before) <==> Meets(o, s', w))
  {
    if Gates(s, step) {
      MeetsAfterGate(o, s, step, s', w);
    } else if !step.Visit? {
      MeetsAfterOther(ttl, o, s, step, s', w);
    }
  }

  /** A gate moves its own worker's side, and the store's if its upload lands. */
  lemma MeetsAfterGate(o: ObjectId, s: State, step: Step, s': State, w: C.Worker)
    requires Gates(s, step)
    requires if Lands(o, s, step) then Landed(o, s, s', step.worker)
             else Stepped(o, s, s', step.worker, s.hosts[step.worker].run.home.db.main)
    ensures var main := s.hosts[step.worker].run.home.db.main;
            && Held(s'.cluster, o) == (if Lands(o, s, step) then main else Held(s.cluster, o))
            && (Resident(s', w) ==>
                  && Resident(s, w)
                  && s'.hosts[w].run.home.shipped == if w == step.worker then main else s.hosts[w].run.home.shipped)
  {
  }

  lemma MeetsAfterOther(ttl: nat, o: ObjectId, s: State, step: Step, s': State, w: C.Worker)
    requires !Gates(s, step) && !step.Visit? && Shape(ttl, o, s, step, s')
    ensures Held(s'.cluster, o) == Held(s.cluster, o)
    ensures Resident(s', w) ==> Resident(s, w) && s'.hosts[w].run.home.shipped == s.hosts[w].run.home.shipped
  {
  }

  /**
   `InStep` reads off the last event that moved either side, the store or what this task's gate
   has last seen: over every run it is true of a live task if and only if the two are equal.
   */
  lemma {:induction false} InStepExact(ttl: nat, o: ObjectId, steps: seq<Step>, w: C.Worker)
    ensures var s := After(ttl, o, steps);
            Resident(s, w) ==> (InStep(ttl, o, steps, w) <==> Held(s.cluster, o) == s.hosts[w].run.home.shipped)
  {
    if steps != [] {
      var front, step := steps[..|steps| - 1], steps[|steps| - 1];
      var s := After(ttl, o, front);
      InStepExact(ttl, o, front, w);
      ReachedShape(ttl, o, front, step);
      MeetsAfter(ttl, o, s, step, Apply(ttl, o, s, step), w, InStep(ttl, o, front, w));
    }
  }

  lemma ReachedShape(ttl: nat, o: ObjectId, steps: seq<Step>, step: Step)
    ensures var s := After(ttl, o, steps); Shape(ttl, o, s, step, Apply(ttl, o, s, step))
  {
    InvAlways(ttl, o, steps);
    InvForStep(o, After(ttl, o, steps), step);
    StepShape(ttl, o, After(ttl, o, steps), step);
  }

  /**
   At every reply of every run, on every worker: unless a schema statement was kept since its
   gate last ran or it spawned, the bytes it last shipped or spawned over are the replay of
   everything its file has been through; and when they are, the store holds that replay if and
   only if the worker is in step. A worker in step whose last bytes are not the replay answers
   from a store that is behind.
   */
  lemma HeldAtReply(ttl: nat, o: ObjectId, steps: seq<Step>, w: C.Worker)
    requires var s := After(ttl, o, steps); w in s.hosts && s.hosts[w].run.phase.Released?
    ensures var s := After(ttl, o, steps);
            var h := s.hosts[w];
            var replay := O.Replay(BLANK, Logged(h));
            && (!h.run.ddl ==> h.run.home.shipped == replay)
            && (h.run.home.shipped == replay ==> (Held(s.cluster, o) == replay <==> InStep(ttl, o, steps, w)))
            && (InStep(ttl, o, steps, w) ==> (Held(s.cluster, o) == replay <==> h.run.home.shipped == replay))
  {
    ReachedHost(ttl, o, steps, w);
    HostFacts(After(ttl, o, steps).hosts[w]);
    InStepExact(ttl, o, steps, w);
  }

  lemma ReachedHost(ttl: nat, o: ObjectId, steps: seq<Step>, w: C.Worker)
    requires w in After(ttl, o, steps).hosts
    ensures var h := After(ttl, o, steps).hosts[w]; RunsFrom(h.base, h.trace, h.run)
  {
    InvAlways(ttl, o, steps);
    assert HostInv(o, After(ttl, o, steps), w);
  }

  // ---- For how long -------------------------------------------------------------------------

  /** The store and every worker's file descend from this ship. */
  ghost predicate Everywhere(s: State, ship: nat) {
    ship in s.line && forall w | w in s.hosts :: ship in s.hosts[w].line
  }

  lemma EverywhereStep(ttl: nat, o: ObjectId, s: State, step: Step, ship: nat)
    requires Everywhere(s, ship)
    ensures Everywhere(Apply(ttl, o, s, step), ship)
  {
  }

  lemma {:induction false} EverywhereStays(ttl: nat, o: ObjectId, s: State, later: seq<Step>, ship: nat)
    requires Everywhere(s, ship)
    ensures Everywhere(From(ttl, o, s, later), ship)
  {
    if later != [] {
      EverywhereStays(ttl, o, s, later[..|later| - 1], ship);
      EverywhereStep(ttl, o, From(ttl, o, s, later[..|later| - 1]), later[|later| - 1], ship);
    }
  }

  /** However the run goes on, the stored snapshot descends from this ship. */
  ghost predicate Survives(ttl: nat, o: ObjectId, s: State, ship: nat) {
    forall later: seq<Step> :: ship in From(ttl, o, s, later).line
  }

  const WRITE := [CreateTable("t"), Put("t", "k", "v")]

  lemma WriteCounts(c: Content)
    ensures ChangesAll(c, WRITE) == 1 && Serials(WRITE) == {}
  {
    assert WRITE[..1] == [CreateTable("t")] && [CreateTable("t")][..0] == [];
    assert ApplyAll(c, WRITE[..1]) == ApplyOp(ApplyAll(c, []), CreateTable("t"));
    assert ChangesAll(c, WRITE[..1]) == 0;
  }

  /** What it takes for a worker to lose the others' work: age them out, spawn over the file it kept, write. */
  function Overwrite(ttl: nat, s: State, w: C.Worker): seq<Step> {
    var rest := Takeover(ttl, w) + Answered(w, WRITE, true);
    if Resident(s, w) then [Local(w, O.Crash)] + rest else rest
  }

  lemma CrashRuns(r: O.State)
    requires !r.phase.Down?
    ensures var r' := O.Apply(PLACED, r, O.Crash);
            && r'.phase.Down? && r'.mailbox == [] && r'.home.db.committed == r.home.db.committed && r'.next == r.next
            && (r.phase.Flushed? ==> r'.log == r.log)
  {
  }

  lemma CrashDowns(ttl: nat, o: ObjectId, s: State, w: C.Worker)
    requires Inv(o, s) && Resident(s, w)
    ensures var s' := Apply(ttl, o, s, Local(w, O.Crash));
            && w in s'.hosts && s'.hosts[w].run.phase.Down? && s'.hosts[w].run.mailbox == []
            && s'.hosts == s.hosts[w := s'.hosts[w]] && s'.hosts[w].line == s.hosts[w].line
            && s'.hosts[w].run.next == s.hosts[w].run.next
            && s'.hosts[w].run.home.db.committed == s.hosts[w].run.home.db.committed
            && s'.cluster == s.cluster.(files := s'.cluster.files, tasks := s'.cluster.tasks)
  {
    assert HostInv(o, s, w);
    CrashedHost(ttl, o, s, w);
  }

  lemma CrashedHost(ttl: nat, o: ObjectId, s: State, w: C.Worker)
    requires Resident(s, w) && HostInv(o, s, w)
    ensures var s' := Apply(ttl, o, s, Local(w, O.Crash));
            && w in s'.hosts && s'.hosts[w].run.phase.Down? && s'.hosts[w].run.mailbox == []
            && s'.hosts == s.hosts[w := s'.hosts[w]] && s'.hosts[w].line == s.hosts[w].line
            && s'.hosts[w].run.next == s.hosts[w].run.next
            && s'.hosts[w].run.home.db.committed == s.hosts[w].run.home.db.committed
            && s'.cluster == s.cluster.(files := s'.cluster.files, tasks := s'.cluster.tasks)
  {
    CrashRuns(s.hosts[w].run);
    QuietMoves(ttl, o, s, w, O.Crash);
    QuietShare(ttl, o, s, w, O.Crash, O.Apply(PLACED, s.hosts[w].run, O.Crash));
  }

  lemma DownOverwrites(ttl: nat, o: ObjectId, s: State, w: C.Worker)
    requires ttl > 0 && Inv(o, s) && ClockInv(s.cluster) && Fence.WithinEpochs(s.cluster)
    requires w in s.hosts && s.hosts[w].run.phase.Down? && s.hosts[w].run.mailbox == []
    ensures From(ttl, o, s, Takeover(ttl, w) + Answered(w, WRITE, true)).line
            == s.hosts[w].line + [|s.cluster.puts|]
  {
    var t := From(ttl, o, s, Takeover(ttl, w));
    TakeoverRuns(ttl, o, s, w);
    TakenOverShips(o, s, t, w);
    NewWriteLands(ttl, o, t, w);
    FromConcat(ttl, o, s, Takeover(ttl, w), Answered(w, WRITE, true));
  }

  /** A takeover's epoch is above everything shipped. */
  lemma TakenOverShips(o: ObjectId, s: State, t: State, w: C.Worker)
    requires TakenOver(o, s, t, w) && Fence.WithinEpochs(s.cluster)
    ensures !Fenced(t.cluster.store, o, t.hosts[w].task.epoch)
  {
  }

  lemma NewWriteLands(ttl: nat, o: ObjectId, t: State, w: C.Worker)
    requires Inv(o, t) && w in t.hosts && t.hosts[w].run.phase.Waiting? && t.hosts[w].run.mailbox == []
    requires !Fenced(t.cluster.store, o, t.hosts[w].task.epoch)
    ensures From(ttl, o, t, Answered(w, WRITE, true)).line == t.hosts[w].line + [|t.cluster.puts|]
  {
    WriteCounts(t.hosts[w].run.home.db.committed);
    AnsweredRuns(ttl, o, t, w, WRITE, true);
  }

  lemma UpOverwrites(ttl: nat, o: ObjectId, s: State, w: C.Worker)
    requires ttl > 0 && Inv(o, s) && ClockInv(s.cluster) && Fence.WithinEpochs(s.cluster) && Resident(s, w)
    ensures From(ttl, o, s, [Local(w, O.Crash)] + (Takeover(ttl, w) + Answered(w, WRITE, true))).line
            == s.hosts[w].line + [|s.cluster.puts|]
  {
    CrashDowns(ttl, o, s, w);
    StepKeeps(ttl, o, s, Local(w, O.Crash));
    DownOverwrites(ttl, o, Apply(ttl, o, s, Local(w, O.Crash)), w);
    FromOne(ttl, o, s, Local(w, O.Crash));
    FromConcat(ttl, o, s, [Local(w, O.Crash)], Takeover(ttl, w) + Answered(w, WRITE, true));
  }

  lemma Overwrites(ttl: nat, o: ObjectId, steps: seq<Step>, w: C.Worker)
    requires w in After(ttl, o, steps).hosts
    ensures var s := After(ttl, o, steps);
            From(ttl, o, s, Overwrite(ttl, s, w)).line == s.hosts[w].line + [|s.cluster.puts|]
  {
    var s := After(ttl, o, steps);
    HostsNeedTtl(ttl, o, steps, w);
    Reachable(ttl, o, steps);
    if Resident(s, w) {
      UpOverwrites(ttl, o, s, w);
    } else {
      DownOverwrites(ttl, o, s, w);
    }
  }

  lemma ShipsAreNumbered(ttl: nat, o: ObjectId, steps: seq<Step>, ship: nat)
    requires ship in After(ttl, o, steps).line
    ensures ship < |After(ttl, o, steps).cluster.puts|
  {
    InvAlways(ttl, o, steps);
  }

  /**
   A ship the stored snapshot descends from survives every continuation if and only if every
   worker that still has a file of the object has one that descends from it. A worker keeps its
   file for good and never compares it with the store, so one worker with an older file is
   enough to lose the ship: it need only become the owner again and write.
   */
  lemma SurvivesExactly(ttl: nat, o: ObjectId, steps: seq<Step>, ship: nat)
    requires ship in After(ttl, o, steps).line
    ensures var s := After(ttl, o, steps);
            Survives(ttl, o, s, ship) <==> forall w | w in s.hosts :: ship in s.hosts[w].line
  {
    var s := After(ttl, o, steps);
    if Everywhere(s, ship) {
      forall later: seq<Step> ensures ship in From(ttl, o, s, later).line {
        EverywhereStays(ttl, o, s, later, ship);
      }
    } else {
      var w :| w in s.hosts && ship !in s.hosts[w].line;
      Overwrites(ttl, o, steps, w);
      ShipsAreNumbered(ttl, o, steps, ship);
      assert ship !in From(ttl, o, s, Overwrite(ttl, s, w)).line;
    }
  }

  /** Worker `next` spawns over the content `told`, continued by what the stored log holds beyond `log`. */
  ghost predicate Continues(ttl: nat, o: ObjectId, t: State, next: C.Worker, told: Content, log: seq<O.Entry>) {
    var after := Apply(ttl, o, t, Visit(next));
    && next in after.hosts && log <= t.stored && after.hosts[next].base == t.stored
    && after.hosts[next].run.home.db.committed == O.Replay(told, t.stored[|log|..])
  }

  /**
   A worker answers a call in step with the store, and every file of the object then descends
   from the stored ship. Whatever follows, crashes, lost volumes and takeovers included, the
   next worker without a file starts from the replay of everything logged before that answer,
   continued by what was shipped since.
   */
  lemma FailoverContinuesTheLog(ttl: nat, o: ObjectId, steps: seq<Step>, w: C.Worker, later: seq<Step>, next: C.Worker)
    requires var s := After(ttl, o, steps);
             && w in s.hosts && s.hosts[w].run.phase.Released? && !s.hosts[w].run.ddl && InStep(ttl, o, steps, w)
             && (s.line != [] ==> Everywhere(s, s.line[|s.line| - 1]))
    requires var t := From(ttl, o, After(ttl, o, steps), later); next !in t.hosts && Spawns(ttl, t, o, next)
    ensures var s := After(ttl, o, steps);
            Continues(ttl, o, From(ttl, o, s, later), next, O.Replay(BLANK, Logged(s.hosts[w])), s.stored)
  {
    AnswerIsHeld(ttl, o, steps, w);
    ReachedIsContinued(ttl, o, steps, later, next);
  }

  lemma AnswerIsHeld(ttl: nat, o: ObjectId, steps: seq<Step>, w: C.Worker)
    requires var s := After(ttl, o, steps);
             w in s.hosts && s.hosts[w].run.phase.Released? && !s.hosts[w].run.ddl && InStep(ttl, o, steps, w)
    ensures var s := After(ttl, o, steps); Held(s.cluster, o) == O.Replay(BLANK, Logged(s.hosts[w]))
  {
    HeldAtReply(ttl, o, steps, w);
  }

  lemma ReachedIsContinued(ttl: nat, o: ObjectId, steps: seq<Step>, later: seq<Step>, next: C.Worker)
    requires var s := After(ttl, o, steps); s.line != [] ==> Everywhere(s, s.line[|s.line| - 1])
    requires var t := From(ttl, o, After(ttl, o, steps), later); next !in t.hosts && Spawns(ttl, t, o, next)
    ensures var s := After(ttl, o, steps);
            Continues(ttl, o, From(ttl, o, s, later), next, Held(s.cluster, o), s.stored)
  {
    InvAlways(ttl, o, steps);
    HeldIsContinued(ttl, o, After(ttl, o, steps), later, next);
  }

  lemma HeldIsContinued(ttl: nat, o: ObjectId, s: State, later: seq<Step>, next: C.Worker)
    requires Inv(o, s) && (s.line != [] ==> Everywhere(s, s.line[|s.line| - 1]))
    requires var t := From(ttl, o, s, later); next !in t.hosts && Spawns(ttl, t, o, next)
    ensures Continues(ttl, o, From(ttl, o, s, later), next, Held(s.cluster, o), s.stored)
  {
    var t := From(ttl, o, s, later);
    InvFrom(ttl, o, s, later);
    if s.line != [] {
      var ship := s.line[|s.line| - 1];
      LastsFirst(o, s, ship);
      LastsFrom(ttl, o, s, later, ship, s.stored);
      LastsStored(o, t, ship, s.stored);
    }
    RehomeContinues(ttl, o, s, t, next);
  }

  lemma RehomeContinues(ttl: nat, o: ObjectId, s: State, t: State, next: C.Worker)
    requires StoredInv(o, s) && Inv(o, t) && next !in t.hosts && Spawns(ttl, t, o, next) && s.stored <= t.stored
    ensures Continues(ttl, o, t, next, Held(s.cluster, o), s.stored)
  {
    InvForStep(o, t, Visit(next));
    RehomedFile(ttl, o, t, next);
    ReplayBeyond(s.stored, t.stored);
  }

  lemma ReplayBeyond(log: seq<O.Entry>, more: seq<O.Entry>)
    requires log <= more
    ensures O.Replay(BLANK, more) == O.Replay(O.Replay(BLANK, log), more[|log|..])
  {
    assert more == log + more[|log|..];
    ReplayConcat(BLANK, log, more[|log|..]);
  }

  lemma RehomedFile(ttl: nat, o: ObjectId, t: State, next: C.Worker)
    requires InvFor(o, t, Visit(next)) && next !in t.hosts && Spawns(ttl, t, o, next)
    ensures var after := Apply(ttl, o, t, Visit(next));
            && next in after.hosts && after.hosts[next].base == t.stored
            && after.hosts[next].run.home.db.committed == O.Replay(BLANK, t.stored)
  {
    VisitMoves(ttl, o, t, next);
    RehomedHost(t.stored, Granted(ttl, t, o, next), t.line);
  }

  /** A ship that carried `log`, and that everything descends from. */
  ghost predicate Lasts(o: ObjectId, s: State, ship: nat, log: seq<O.Entry>) {
    Inv(o, s) && Everywhere(s, ship) && ship < |s.cluster.puts| && ship in s.carried && s.carried[ship] == log
  }

  lemma LastsFirst(o: ObjectId, s: State, ship: nat)
    requires Inv(o, s) && s.line != [] && ship == s.line[|s.line| - 1] && Everywhere(s, ship)
    ensures Lasts(o, s, ship, s.stored)
  {
  }

  lemma LastsStored(o: ObjectId, s: State, ship: nat, log: seq<O.Entry>)
    requires Lasts(o, s, ship, log)
    ensures log <= s.stored
  {
  }

  lemma CarriedStep(ttl: nat, o: ObjectId, s: State, step: Step, ship: nat)
    requires ship < |s.cluster.puts| && ship in s.carried
    ensures var s' := Apply(ttl, o, s, step);
            ship < |s'.cluster.puts| && ship in s'.carried && s'.carried[ship] == s.carried[ship]
  {
    ApplyCluster(ttl, o, s, step);
    PutsGrow(ttl, s.cluster, Shared(o, s, step));
  }

  lemma PutsGrow(ttl: nat, k: C.State, step: C.Step)
    ensures |k.puts| <= |C.Apply(ttl, k, step).puts|
  {
  }

  lemma {:induction false} LastsFrom(ttl: nat, o: ObjectId, s: State, later: seq<Step>, ship: nat, log: seq<O.Entry>)
    requires Lasts(o, s, ship, log)
    ensures Lasts(o, From(ttl, o, s, later), ship, log)
  {
    if later != [] {
      var t, step := From(ttl, o, s, later[..|later| - 1]), later[|later| - 1];
      LastsFrom(ttl, o, s, later[..|later| - 1], ship, log);
      EverywhereStep(ttl, o, t, step, ship);
      CarriedStep(ttl, o, t, step, ship);
      StepKeeps(ttl, o, t, step);
    }
  }
}

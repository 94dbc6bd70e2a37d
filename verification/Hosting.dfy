/**
 One object's task on every worker that has its file, the registry and the blob store as one
 machine. Visiting a worker is the cluster's spawn and the object's spawn over the file found
 there; an output gate that runs is the cluster's ship of the main file under the epoch the
 task was granted, or an upload that fails before its snapshot or before its manifest, which
 is only logged; every other step of a task is its own, and its commits are writes to that
 worker's file. All objects start from nothing.

 Three things are kept beside the program's own state: the log each host's file started from,
 the log the stored snapshot replays, and which uploads each of them descends from.
 */
module Hosting {
  import opened ObjectContent
  import opened ObjectStorage
  import opened ObjectHome
  import opened ObjectStore
  import opened Registry
  import O = ObjectRuns
  import C = Cluster

  /** Placed objects have storage and an output gate. */
  const PLACED := Config(true, true)

  /** A worker with a file of the object, its task up or down. */
  datatype Host = Host(
    base: seq<O.Entry>,      // what the file replayed when this worker first got it
    trace: seq<O.Step>,      // every step since
    run: O.State,            // where they led
    task: C.Task,            // the last task spawned
    line: seq<nat>)          // the uploads the file descends from, oldest first

  datatype State = State(
    cluster: C.State,
    hosts: map<C.Worker, Host>,
    stored: seq<O.Entry>,               // what the stored snapshot replays
    line: seq<nat>,                     // the uploads it descends from; the last one put it there
    carried: map<nat, seq<O.Entry>>)    // what each upload replays

  datatype Step =
    | Around(other: C.Step)
    | Visit(worker: C.Worker)
    | Local(worker: C.Worker, step: O.Step)
    | GateFails(worker: C.Worker, torn: bool)   // `torn`: the snapshot was put, its manifest was not
    | LoseFile(worker: C.Worker)

  const INIT := State(C.INIT, map[], [], [], map[])

  /** The file a restore writes, opened afresh. */
  function Restored(c: Content): Db {
    Db(c, c, c, false, 0)
  }

  function Found(log: seq<O.Entry>): O.State {
    O.Init(Restored(O.Replay(BLANK, log)))
  }

  /** Everything the host's file has been through since the object was nothing. */
  function Logged(h: Host): seq<O.Entry> {
    h.base + h.run.log
  }

  /** What a worker without a file would restore. */
  function Held(k: C.State, o: ObjectId): Content {
    if o in k.store.manifests && o in k.store.snapshots then k.store.snapshots[o] else BLANK
  }

  predicate Resident(s: State, w: C.Worker) {
    w in s.hosts && !s.hosts[w].run.phase.Down?
  }

  predicate Spawns(ttl: nat, s: State, o: ObjectId, w: C.Worker) {
    !Resident(s, w) && w in s.cluster.identity && C.Acquires(ttl, s.cluster, o, s.cluster.identity[w])
  }

  function Granted(ttl: nat, s: State, o: ObjectId, w: C.Worker): C.Task
    requires Spawns(ttl, s, o, w)
  {
    C.Task(w, o, C.ClaimOutcome(ttl, s.cluster, o, s.cluster.identity[w]).value.epoch)
  }

  predicate GateRuns(r: O.State) {
    r.phase.Flushed? && r.home.db.changes != r.home.mark
  }

  /** The step is an output gate that runs. */
  predicate Gates(s: State, step: Step) {
    && (step.GateFails? || (step.Local? && step.step.Gate?))
    && step.worker in s.hosts && GateRuns(s.hosts[step.worker].run)
  }

  /** Its upload changes what a restore finds: it is not fenced, and it puts its manifest, or at
      least its snapshot under a manifest already there. */
  predicate Lands(o: ObjectId, s: State, step: Step)
    requires Gates(s, step)
  {
    && !Fenced(s.cluster.store, o, s.hosts[step.worker].task.epoch)
    && (step.GateFails? ==> step.torn && o in s.cluster.store.manifests)
  }

  /** A cluster step that is no task's or file's of this object. */
  predicate Foreign(o: ObjectId, step: C.Step) {
    match step
    case Spawn(_, p) => p != o
    case End(t) => t.objectId != o
    case Write(_, p, _) => p != o
    case LoseFile(_, p) => p != o
    case Ship(t, _) => t.objectId != o
    case Tear(t, _) => t.objectId != o
    case _ => true
  }

  /** The cluster's share of a task's own step, which leaves its run at `after`. */
  function LocalShare(o: ObjectId, s: State, w: C.Worker, step: O.Step, after: O.State): C.Step
    requires w in s.hosts
  {
    var h := s.hosts[w];
    if step.Gate? && GateRuns(h.run) then C.Ship(h.task, h.run.home.db.main)
    else if after.phase.Down? && !h.run.phase.Down? then C.End(h.task)
    else C.Write(w, o, after.home.db.committed)
  }

  /** The cluster's share of a step. */
  function Shared(o: ObjectId, s: State, step: Step): C.Step {
    match step
    case Around(c) => if Foreign(o, c) then c else C.Tick(0)
    case Visit(w) => if Resident(s, w) then C.Tick(0) else C.Spawn(w, o)
    case LoseFile(w) => if Resident(s, w) then C.Tick(0) else C.LoseFile(w, o)
    case Local(w, step) =>
      if w !in s.hosts || step.Spawn? then C.Tick(0)
      else LocalShare(o, s, w, step, O.Apply(PLACED, s.hosts[w].run, step))
    case GateFails(w, torn) =>
      if torn && Gates(s, step) then C.Tear(s.hosts[w].task, s.hosts[w].run.home.db.main) else C.Tick(0)
  }

  function Visited(ttl: nat, o: ObjectId, s: State, w: C.Worker): Host
    requires Spawns(ttl, s, o, w)
  {
    var task := Granted(ttl, s, o, w);
    if w in s.hosts then
      var h := s.hosts[w];
      Host(h.base, h.trace + [O.Spawn], O.Apply(PLACED, h.run, O.Spawn), task, h.line)
    else
      Host(s.stored, [O.Spawn], O.Apply(PLACED, Found(s.stored), O.Spawn), task, s.line)
  }

  /** A task's own step; an upload that lands moves the stored snapshot to the shipper's log and line. */
  function Moved(s: State, cluster: C.State, w: C.Worker, step: O.Step, after: O.State, lands: bool): State
    requires w in s.hosts
  {
    var h := s.hosts[w];
    var h' := Host(h.base, h.trace + [step], after, h.task, h.line);
    if lands then
      var line := h.line + [|s.cluster.puts|];
      State(cluster, s.hosts[w := h'.(line := line)], Logged(h), line, s.carried[|s.cluster.puts| := Logged(h)])
    else
      s.(cluster := cluster, hosts := s.hosts[w := h'])
  }

  function Apply(ttl: nat, o: ObjectId, s: State, step: Step): State {
    var cluster := C.Apply(ttl, s.cluster, Shared(o, s, step));
    match step
    case Around(_) => s.(cluster := cluster)
    case Visit(w) =>
      s.(cluster := cluster, hosts := if Spawns(ttl, s, o, w) then s.hosts[w := Visited(ttl, o, s, w)] else s.hosts)
    case LoseFile(w) =>
      s.(cluster := cluster, hosts := if Resident(s, w) then s.hosts else s.hosts - {w})
    case Local(w, own) =>
      if w !in s.hosts || own.Spawn? then s.(cluster := cluster)
      else Moved(s, cluster, w, own, O.Apply(PLACED, s.hosts[w].run, own), Gates(s, step) && Lands(o, s, step))
    case GateFails(w, _) =>
      if !Gates(s, step) then s.(cluster := cluster)
      else Moved(s, cluster, w, O.Gate, O.Apply(PLACED, s.hosts[w].run, O.Gate), Lands(o, s, step))
  }

  function From(ttl: nat, o: ObjectId, s: State, steps: seq<Step>): State {
    if steps == [] then s
    else Apply(ttl, o, From(ttl, o, s, steps[..|steps| - 1]), steps[|steps| - 1])
  }

  function After(ttl: nat, o: ObjectId, steps: seq<Step>): State {
    From(ttl, o, INIT, steps)
  }

  lemma {:induction false} ReplayConcat(c: Content, a: seq<O.Entry>, b: seq<O.Entry>)
    ensures O.Replay(c, a + b) == O.Replay(O.Replay(c, a), b)
  {
    if b == [] {
      assert a + b == a;
    } else {
      assert (a + b)[..|a + b| - 1] == a + b[..|b| - 1];
      ReplayConcat(c, a, b[..|b| - 1]);
    }
  }

  // ---- What is kept ------------------------------------------------------------------

  predicate Startable(log: seq<O.Entry>) {
    |O.Replay(BLANK, log).alarms| <= 1
  }

  /** The host's run is a run of the object's machine over the file it started from. */
  ghost predicate RunsFrom(base: seq<O.Entry>, trace: seq<O.Step>, run: O.State) {
    Startable(base) && run == O.From(PLACED, Found(base), trace)
  }

  ghost predicate Descends(s: State, line: seq<nat>, log: seq<O.Entry>) {
    forall i | i in line :: i < |s.cluster.puts| && i in s.carried && s.carried[i] <= log
  }

  /** The worker's file, its task and the log it goes back to are what the cluster knows of them. */
  ghost predicate HostInv(o: ObjectId, s: State, w: C.Worker)
    requires w in s.hosts
  {
    var h := s.hosts[w];
    && RunsFrom(h.base, h.trace, h.run)
    && h.task.worker == w && h.task.objectId == o && (Resident(s, w) ==> h.task in s.cluster.tasks)
    && (w, o) in s.cluster.files && s.cluster.files[(w, o)] == h.run.home.db.committed
    && Descends(s, h.line, Logged(h))
  }

  ghost predicate StoredInv(o: ObjectId, s: State) {
    && Startable(s.stored) && Held(s.cluster, o) == O.Replay(BLANK, s.stored)
    && Descends(s, s.line, s.stored)
    && (if s.line == [] then s.stored == []
        else s.line[|s.line| - 1] in s.carried && s.carried[s.line[|s.line| - 1]] == s.stored)
  }

  ghost predicate Inv(o: ObjectId, s: State) {
    && StoredInv(o, s)
    && (forall w | w in s.hosts :: HostInv(o, s, w))
    && (forall w: C.Worker | (w, o) in s.cluster.files :: w in s.hosts)
  }

  lemma HostFacts(h: Host)
    requires RunsFrom(h.base, h.trace, h.run)
    ensures var r := h.run;
            && O.HomeInv(PLACED, r) && O.FileInv(O.Replay(BLANK, h.base), r) && O.GateInv(r)
            && (!r.phase.Ready? && !r.phase.Running? ==> r.home.db.committed == O.Replay(BLANK, Logged(h)))
            && (r.phase.Flushed? || r.phase.Released? ==> r.home.db.main == r.home.db.committed)
  {
    var d := Restored(O.Replay(BLANK, h.base));
    O.HomeAlways(PLACED, d, h.trace);
    O.FileAlways(PLACED, d, h.trace);
    O.GateAlways(PLACED, d, h.trace);
    ReplayConcat(BLANK, h.base, h.run.log);
  }

  lemma RunExtends(base: seq<O.Entry>, trace: seq<O.Step>, run: O.State, step: O.Step)
    requires RunsFrom(base, trace, run)
    ensures RunsFrom(base, trace + [step], O.Apply(PLACED, run, step))
    ensures run.log <= O.Apply(PLACED, run, step).log
  {
    LogGrows(run, step);
    O.FromStep(PLACED, Found(base), trace, step);
  }

  lemma LogGrows(run: O.State, step: O.Step)
    ensures run.log <= O.Apply(PLACED, run, step).log
  {
  }

  // ---- The shapes a step can have --------------------------------------------------------

  /** What the cluster's share of a step leaves alone. */
  ghost predicate Untouched(o: ObjectId, k: C.State, k': C.State) {
    && (forall t: C.Task | t.objectId == o :: t in k.tasks ==> t in k'.tasks)
    && (forall w: C.Worker :: (w, o) in k.files <==> (w, o) in k'.files)
    && (forall w: C.Worker | (w, o) in k.files :: k'.files[(w, o)] == k.files[(w, o)])
    && Held(k', o) == Held(k, o) && |k.puts| <= |k'.puts|
  }

  /** No host and no stored content of the object moves. */
  ghost predicate Passive(o: ObjectId, s: State, s': State) {
    s' == s.(cluster := s'.cluster) && Untouched(o, s.cluster, s'.cluster)
  }

  /** Worker `w` spawns as `h`. */
  ghost predicate Placed(o: ObjectId, s: State, s': State, w: C.Worker, h: Host) {
    && s' == s.(cluster := s'.cluster, hosts := s.hosts[w := h])
    && s'.cluster.store == s.cluster.store && s'.cluster.puts == s.cluster.puts
    && s'.cluster.tasks == s.cluster.tasks + {h.task}
    && s'.cluster.files == s.cluster.files[(w, o) := h.run.home.db.committed]
    && RunsFrom(h.base, h.trace, h.run) && h.task.worker == w && h.task.objectId == o
    && h.run.phase.Waiting? && h.run.home.db.committed == C.SpawnFile(s.cluster, w, o)
    && h.run.home.shipped == h.run.home.db.committed
    && Logged(h) == (if w in s.hosts then Logged(s.hosts[w]) else s.stored)
    && h.line == (if w in s.hosts then s.hosts[w].line else s.line)
  }

  ghost predicate Lost(o: ObjectId, s: State, s': State, w: C.Worker) {
    s' == s.(cluster := s.cluster.(files := s.cluster.files - {(w, o)}), hosts := s.hosts - {w})
  }

  /** The host moves on from `h` to `h'`; `seen` are the bytes its gate has last seen by then. */
  ghost predicate Onward(h: Host, h': Host, seen: Content) {
    && h'.base == h.base && h'.task == h.task && RunsFrom(h'.base, h'.trace, h'.run)
    && h.run.log <= h'.run.log && (h.run.phase.Down? ==> h'.run.phase.Down?) && h'.run.home.shipped == seen
  }

  /** Worker `w`'s task takes a step and no restore would notice. */
  ghost predicate Stepped(o: ObjectId, s: State, s': State, w: C.Worker, seen: Content) {
    && w in s.hosts && w in s'.hosts && Onward(s.hosts[w], s'.hosts[w], seen)
    && s'.hosts[w].line == s.hosts[w].line
    && s' == s.(cluster := s'.cluster, hosts := s.hosts[w := s'.hosts[w]])
    && s'.cluster.files == s.cluster.files[(w, o) := s'.hosts[w].run.home.db.committed]
    && s'.cluster.tasks == s.cluster.tasks -
                           (if s'.hosts[w].run.phase.Down? && Resident(s, w) then {s.hosts[w].task} else {})
    && Held(s'.cluster, o) == Held(s.cluster, o) && |s.cluster.puts| <= |s'.cluster.puts|
  }

  /** Worker `w`'s gate runs and its upload lands. */
  ghost predicate Landed(o: ObjectId, s: State, s': State, w: C.Worker) {
    && w in s.hosts && w in s'.hosts && Resident(s, w) && Resident(s', w)
    && var h, h', put := s.hosts[w], s'.hosts[w], |s.cluster.puts|;
       && Onward(h, h', h.run.home.db.main)
       && h'.run.log == h.run.log && h'.run.home.db == h.run.home.db && h.run.phase.Flushed?
       && h'.line == h.line + [put]
       && s'.hosts == s.hosts[w := h'] && s'.stored == Logged(h) && s'.line == h'.line
       && s'.carried == s.carried[put := Logged(h)]
       && s'.cluster.files == s.cluster.files[(w, o) := h.run.home.db.main]
       && s'.cluster.tasks == s.cluster.tasks
       && Held(s'.cluster, o) == h.run.home.db.main && |s'.cluster.puts| == put + 1
  }

  /** What a step does, in these terms. */
  ghost predicate Shape(ttl: nat, o: ObjectId, s: State, step: Step, s': State) {
    if Gates(s, step) then
      if Lands(o, s, step) then Landed(o, s, s', step.worker)
      else Stepped(o, s, s', step.worker, s.hosts[step.worker].run.home.db.main)
    else
      match step
      case Around(_) => Passive(o, s, s')
      case Visit(w) =>
        if Spawns(ttl, s, o, w) then Placed(o, s, s', w, Visited(ttl, o, s, w)) else Passive(o, s, s')
      case LoseFile(w) => if Resident(s, w) then Passive(o, s, s') else Lost(o, s, s', w)
      case Local(w, own) =>
        if w !in s.hosts || own.Spawn? then Passive(o, s, s')
        else Stepped(o, s, s', w, s.hosts[w].run.home.shipped)
      case GateFails(_, _) => Passive(o, s, s')
  }

  lemma SpawnShape(ttl: nat, k: C.State, o: ObjectId, w: C.Worker)
    requires w in k.identity
    ensures var n := k.identity[w];
            var k' := C.Apply(ttl, k, C.Spawn(w, o));
            && k'.store == k.store && k'.ships == k.ships && k'.puts == k.puts
            && (if C.Acquires(ttl, k, o, n) then
                  && k'.tasks == k.tasks + {C.Task(w, o, C.ClaimOutcome(ttl, k, o, n).value.epoch)}
                  && k'.files == k.files[(w, o) := C.SpawnFile(k, w, o)]
                else k'.tasks == k.tasks && k'.files == k.files)
  {
  }

  lemma ForeignShape(ttl: nat, o: ObjectId, k: C.State, step: C.Step)
    requires Foreign(o, step)
    ensures Untouched(o, k, C.Apply(ttl, k, step))
  {
    if step.Spawn? && step.worker in k.identity {
      SpawnShape(ttl, k, step.objectId, step.worker);
    }
  }

  lemma AroundShape(ttl: nat, o: ObjectId, s: State, c: C.Step)
    ensures Passive(o, s, Apply(ttl, o, s, Around(c)))
  {
    ForeignShape(ttl, o, s.cluster, Shared(o, s, Around(c)));
  }

  lemma SpawnRuns(r: O.State)
    requires r.phase.Down?
    ensures var r' := O.Apply(PLACED, r, O.Spawn);
            && r'.phase.Waiting? && r'.log == r.log && r'.home == Spawned(PLACED, r.home.db)
            && r'.mailbox == r.mailbox && r'.next == r.next && !r'.ddl
  {
  }

  /** A host up over its file, nothing counted since: `log` is what the file has been through. */
  ghost predicate FreshHost(h: Host, file: Content, log: seq<O.Entry>, line: seq<nat>) {
    && RunsFrom(h.base, h.trace, h.run) && h.run.phase.Waiting? && !h.run.ddl
    && h.run.home.db.committed == file && h.run.home.shipped == file
    && h.run.home.mark == 0 && h.run.home.db.changes == 0
    && Logged(h) == log && h.line == line
  }

  lemma RespawnedHost(h: Host, task: C.Task)
    requires RunsFrom(h.base, h.trace, h.run) && h.run.phase.Down?
    ensures var h' := Host(h.base, h.trace + [O.Spawn], O.Apply(PLACED, h.run, O.Spawn), task, h.line);
            && FreshHost(h', h.run.home.db.committed, Logged(h), h.line)
            && h'.run.mailbox == h.run.mailbox && h'.run.next == h.run.next
  {
    RunExtends(h.base, h.trace, h.run, O.Spawn);
    SpawnRuns(h.run);
  }

  lemma RehomedHost(log: seq<O.Entry>, task: C.Task, line: seq<nat>)
    requires Startable(log)
    ensures var h := Host(log, [O.Spawn], O.Apply(PLACED, Found(log), O.Spawn), task, line);
            FreshHost(h, O.Replay(BLANK, log), log, line) && h.run.mailbox == [] && h.run.next == 0
  {
    var bare := Host(log, [], Found(log), task, line);
    FoundFile(log);
    assert Logged(bare) == log;
    RespawnedHost(bare, task);
    assert bare.trace + [O.Spawn] == [O.Spawn];
  }

  lemma FoundFile(log: seq<O.Entry>)
    requires Startable(log)
    ensures RunsFrom(log, [], Found(log))
    ensures var r := Found(log);
            && r.phase.Down? && r.log == [] && r.mailbox == [] && r.next == 0
            && r.home.db.committed == O.Replay(BLANK, log)
  {
  }

  /** The host a spawn makes: over its own file, or over the stored snapshot and its log. */
  lemma VisitedHost(ttl: nat, o: ObjectId, s: State, w: C.Worker)
    requires Spawns(ttl, s, o, w)
    requires if w in s.hosts then HostInv(o, s, w) else StoredInv(o, s) && (w, o) !in s.cluster.files
    ensures var h := Visited(ttl, o, s, w);
            && h.task == Granted(ttl, s, o, w)
            && if w in s.hosts then
                 && FreshHost(h, C.SpawnFile(s.cluster, w, o), Logged(s.hosts[w]), s.hosts[w].line)
                 && h.run.mailbox == s.hosts[w].run.mailbox && h.run.next == s.hosts[w].run.next
               else
                 && FreshHost(h, C.SpawnFile(s.cluster, w, o), s.stored, s.line)
                 && h.run.mailbox == [] && h.run.next == 0
  {
    if w in s.hosts {
      RespawnedHost(s.hosts[w], Granted(ttl, s, o, w));
    } else {
      RehomedHost(s.stored, Granted(ttl, s, o, w), s.line);
    }
  }

  lemma VisitMoves(ttl: nat, o: ObjectId, s: State, w: C.Worker)
    requires Spawns(ttl, s, o, w)
    ensures Apply(ttl, o, s, Visit(w))
            == s.(cluster := C.Apply(ttl, s.cluster, C.Spawn(w, o)), hosts := s.hosts[w := Visited(ttl, o, s, w)])
  {
  }

  lemma PlacedShape(ttl: nat, o: ObjectId, s: State, w: C.Worker)
    requires Spawns(ttl, s, o, w)
    requires if w in s.hosts then HostInv(o, s, w) else StoredInv(o, s) && (w, o) !in s.cluster.files
    ensures Placed(o, s, Apply(ttl, o, s, Visit(w)), w, Visited(ttl, o, s, w))
  {
    VisitMoves(ttl, o, s, w);
    SpawnShape(ttl, s.cluster, o, w);
    VisitedHost(ttl, o, s, w);
  }

  lemma UnplacedShape(ttl: nat, o: ObjectId, s: State, w: C.Worker)
    requires !Spawns(ttl, s, o, w)
    ensures Passive(o, s, Apply(ttl, o, s, Visit(w)))
  {
    if w in s.cluster.identity {
      SpawnShape(ttl, s.cluster, o, w);
    }
  }

  lemma VisitShape(ttl: nat, o: ObjectId, s: State, w: C.Worker)
    requires if w in s.hosts then HostInv(o, s, w) else StoredInv(o, s) && (w, o) !in s.cluster.files
    ensures Shape(ttl, o, s, Visit(w), Apply(ttl, o, s, Visit(w)))
  {
    if Spawns(ttl, s, o, w) {
      PlacedShape(ttl, o, s, w);
    } else {
      UnplacedShape(ttl, o, s, w);
    }
  }

  lemma LoseShape(ttl: nat, o: ObjectId, s: State, w: C.Worker)
    ensures Shape(ttl, o, s, LoseFile(w), Apply(ttl, o, s, LoseFile(w)))
  {
  }

  /** A step that takes a task down leaves its file's content alone, and one that is down stays so;
      only a gate that runs moves what the gate has seen. */
  lemma OwnStep(r: O.State, step: O.Step)
    requires !step.Spawn?
    ensures var r' := O.Apply(PLACED, r, step);
            && (r'.phase.Down? && !r.phase.Down? ==> r'.home.db.committed == r.home.db.committed)
            && (r.phase.Down? ==> r'.phase.Down?)
            && (!(step.Gate? && GateRuns(r)) ==> r'.home.shipped == r.home.shipped)
  {
  }

  /** What a host's own step does to the cluster, unless its gate runs. */
  lemma QuietShare(ttl: nat, o: ObjectId, s: State, w: C.Worker, step: O.Step, after: O.State)
    requires w in s.hosts && HostInv(o, s, w) && !(step.Gate? && GateRuns(s.hosts[w].run))
    requires after.phase.Down? && Resident(s, w) ==> after.home.db.committed == s.hosts[w].run.home.db.committed
    ensures C.Apply(ttl, s.cluster, LocalShare(o, s, w, step, after))
            == s.cluster.(files := s.cluster.files[(w, o) := after.home.db.committed],
               tasks := s.cluster.tasks - (if after.phase.Down? && Resident(s, w) then {s.hosts[w].task} else {}))
  {
    assert s.cluster.files[(w, o) := s.cluster.files[(w, o)]] == s.cluster.files;
  }

  lemma QuietMoves(ttl: nat, o: ObjectId, s: State, w: C.Worker, own: O.Step)
    requires w in s.hosts && !own.Spawn? && !Gates(s, Local(w, own))
    ensures var after := O.Apply(PLACED, s.hosts[w].run, own);
            Apply(ttl, o, s, Local(w, own))
            == Moved(s, C.Apply(ttl, s.cluster, LocalShare(o, s, w, own, after)), w, own, after, false)
  {
  }

  lemma QuietShape(ttl: nat, o: ObjectId, s: State, w: C.Worker, own: O.Step)
    requires w in s.hosts && HostInv(o, s, w) && !own.Spawn? && !Gates(s, Local(w, own))
    ensures Stepped(o, s, Apply(ttl, o, s, Local(w, own)), w, s.hosts[w].run.home.shipped)
  {
    var h := s.hosts[w];
    var after := O.Apply(PLACED, h.run, own);
    QuietMoves(ttl, o, s, w, own);
    OwnStep(h.run, own);
    RunExtends(h.base, h.trace, h.run, own);
    QuietShare(ttl, o, s, w, own, after);
  }

  lemma GateRun(r: O.State)
    requires GateRuns(r)
    ensures O.Apply(PLACED, r, O.Gate) == r.(home := r.home.(mark := r.home.db.changes, shipped := r.home.db.main),
                                          phase := O.Released(r.phase.work), ddl := false)
  {
  }

  /** What an upload does to the cluster: it lands, or no restore notices. */
  lemma UploadShare(ttl: nat, o: ObjectId, s: State, step: Step)
    requires Gates(s, step) && HostInv(o, s, step.worker)
    requires s.hosts[step.worker].run.home.db.main == s.hosts[step.worker].run.home.db.committed
    ensures var h := s.hosts[step.worker];
            var k' := C.Apply(ttl, s.cluster, Shared(o, s, step));
            && k' == s.cluster.(files := s.cluster.files[(step.worker, o) := h.run.home.db.main],
                     store := k'.store, ships := k'.ships, puts := k'.puts)
            && |s.cluster.puts| <= |k'.puts|
            && (if Lands(o, s, step) then Held(k', o) == h.run.home.db.main && |k'.puts| == |s.cluster.puts| + 1
                else Held(k', o) == Held(s.cluster, o))
            && (step.Local? && Lands(o, s, step) ==>
                  o in k'.store.manifests && k'.store.manifests[o] == h.task.epoch)
            && (step.Local? && !Lands(o, s, step) ==> k'.store == s.cluster.store)
            && (step.GateFails? ==> k'.store.manifests == s.cluster.store.manifests)
  {
    var w := step.worker;
    assert s.cluster.files[(w, o) := s.cluster.files[(w, o)]] == s.cluster.files;
  }

  lemma GateMoves(ttl: nat, o: ObjectId, s: State, step: Step)
    requires Gates(s, step)
    ensures var h := s.hosts[step.worker];
            Apply(ttl, o, s, step)
            == Moved(s, C.Apply(ttl, s.cluster, Shared(o, s, step)), step.worker, O.Gate,
                     O.Apply(PLACED, h.run, O.Gate), Lands(o, s, step))
  {
  }

  lemma GateShape(ttl: nat, o: ObjectId, s: State, step: Step)
    requires Gates(s, step) && HostInv(o, s, step.worker)
    ensures Shape(ttl, o, s, step, Apply(ttl, o, s, step))
  {
    var h := s.hosts[step.worker];
    HostFacts(h);
    GateMoves(ttl, o, s, step);
    GateRun(h.run);
    RunExtends(h.base, h.trace, h.run, O.Gate);
    UploadShare(ttl, o, s, step);
  }

  /** What of the invariant a step's own shape rests on. */
  ghost predicate InvFor(o: ObjectId, s: State, step: Step) {
    match step
    case Around(_) => true
    case LoseFile(_) => true
    case Visit(w) => if w in s.hosts then HostInv(o, s, w) else StoredInv(o, s) && (w, o) !in s.cluster.files
    case Local(w, _) => w in s.hosts ==> HostInv(o, s, w)
    case GateFails(w, _) => w in s.hosts ==> HostInv(o, s, w)
  }

  lemma IdleShape(ttl: nat, o: ObjectId, s: State, step: Step)
    requires match step
             case Local(w, own) => w !in s.hosts || own.Spawn?
             case GateFails(_, _) => !Gates(s, step)
             case _ => false
    ensures Passive(o, s, Apply(ttl, o, s, step))
  {
  }

  lemma StepShape(ttl: nat, o: ObjectId, s: State, step: Step)
    requires InvFor(o, s, step)
    ensures Shape(ttl, o, s, step, Apply(ttl, o, s, step))
  {
    if Gates(s, step) {
      GateShape(ttl, o, s, step);
    } else {
      match step
      case Around(c) => AroundShape(ttl, o, s, c);
      case Visit(w) => VisitShape(ttl, o, s, w);
      case LoseFile(w) => LoseShape(ttl, o, s, w);
      case GateFails(_, _) => IdleShape(ttl, o, s, step);
      case Local(w, own) =>
        if w !in s.hosts || own.Spawn? {
          IdleShape(ttl, o, s, step);
        } else {
          QuietShape(ttl, o, s, w, own);
        }
    }
  }

  // ---- Every shape keeps the invariant ---------------------------------------------------

  lemma DescendsLater(s: State, s': State, line: seq<nat>, log: seq<O.Entry>, log': seq<O.Entry>)
    requires Descends(s, line, log) && log <= log' && |s.cluster.puts| <= |s'.cluster.puts|
    requires forall i | i in s.carried && i < |s.cluster.puts| :: i in s'.carried && s'.carried[i] == s.carried[i]
    ensures Descends(s', line, log')
  {
  }

  /** A host that a step does not touch. */
  lemma OtherHostKept(o: ObjectId, s: State, s': State, v: C.Worker)
    requires v in s.hosts && HostInv(o, s, v) && v in s'.hosts && s'.hosts[v] == s.hosts[v]
    requires s.hosts[v].task in s.cluster.tasks ==> s.hosts[v].task in s'.cluster.tasks
    requires (v, o) in s'.cluster.files && s'.cluster.files[(v, o)] == s.cluster.files[(v, o)]
    requires |s.cluster.puts| <= |s'.cluster.puts|
    requires forall i | i in s.carried && i < |s.cluster.puts| :: i in s'.carried && s'.carried[i] == s.carried[i]
    ensures HostInv(o, s', v)
  {
    DescendsLater(s, s', s.hosts[v].line, Logged(s.hosts[v]), Logged(s.hosts[v]));
  }

  lemma StoredKept(o: ObjectId, s: State, s': State)
    requires StoredInv(o, s) && Held(s'.cluster, o) == Held(s.cluster, o)
    requires s'.stored == s.stored && s'.line == s.line && s'.carried == s.carried
    requires |s.cluster.puts| <= |s'.cluster.puts|
    ensures StoredInv(o, s')
  {
    DescendsLater(s, s', s.line, s.stored, s.stored);
  }

  lemma PassiveKeeps(o: ObjectId, s: State, s': State)
    requires Inv(o, s) && Passive(o, s, s')
    ensures Inv(o, s')
  {
    StoredKept(o, s, s');
    forall w | w in s'.hosts ensures HostInv(o, s', w) {
      assert HostInv(o, s, w);
      OtherHostKept(o, s, s', w);
    }
  }

  lemma LostKeeps(o: ObjectId, s: State, s': State, w: C.Worker)
    requires Inv(o, s) && Lost(o, s, s', w)
    ensures Inv(o, s')
  {
    StoredKept(o, s, s');
    forall v | v in s'.hosts ensures HostInv(o, s', v) {
      assert HostInv(o, s, v);
      assert v != w && (v, o) in s'.cluster.files;
      OtherHostKept(o, s, s', v);
    }
  }

  /** One host changes, the others, the stored side and the older uploads being as they should. */
  lemma OneHostKeeps(o: ObjectId, s: State, s': State, w: C.Worker, file: Content)
    requires Inv(o, s) && StoredInv(o, s') && w in s'.hosts && HostInv(o, s', w)
    requires s'.hosts == s.hosts[w := s'.hosts[w]]
    requires s'.cluster.files == s.cluster.files[(w, o) := file]
    requires forall t: C.Task | t.worker != w :: t in s.cluster.tasks ==> t in s'.cluster.tasks
    requires |s.cluster.puts| <= |s'.cluster.puts|
    requires forall i | i in s.carried && i < |s.cluster.puts| :: i in s'.carried && s'.carried[i] == s.carried[i]
    ensures Inv(o, s')
  {
    forall v | v in s'.hosts ensures HostInv(o, s', v) {
      if v != w {
        assert HostInv(o, s, v);
        OtherHostKept(o, s, s', v);
      }
    }
  }

  lemma PlacedKeeps(o: ObjectId, s: State, s': State, w: C.Worker, h: Host)
    requires Inv(o, s) && Placed(o, s, s', w, h)
    ensures Inv(o, s')
  {
    StoredKept(o, s, s');
    assert w in s.hosts ==> HostInv(o, s, w);
    DescendsLater(s, s', h.line, Logged(h), Logged(h));
    OneHostKeeps(o, s, s', w, s'.cluster.files[(w, o)]);
  }

  lemma SteppedHost(o: ObjectId, s: State, s': State, w: C.Worker, seen: Content)
    requires Stepped(o, s, s', w, seen) && HostInv(o, s, w)
    ensures HostInv(o, s', w)
  {
    var h, h' := s.hosts[w], s'.hosts[w];
    assert Logged(h) <= Logged(h');
    DescendsLater(s, s', h.line, Logged(h), Logged(h'));
  }

  lemma SteppedKeeps(o: ObjectId, s: State, s': State, w: C.Worker, seen: Content)
    requires Inv(o, s) && Stepped(o, s, s', w, seen)
    ensures Inv(o, s')
  {
    assert HostInv(o, s, w);
    SteppedHost(o, s, s', w, seen);
    StoredKept(o, s, s');
    OneHostKeeps(o, s, s', w, s'.cluster.files[(w, o)]);
  }

  lemma LandedHost(o: ObjectId, s: State, s': State, w: C.Worker)
    requires Landed(o, s, s', w) && HostInv(o, s, w)
    ensures HostInv(o, s', w) && StoredInv(o, s')
  {
    var h, h' := s.hosts[w], s'.hosts[w];
    HostFacts(h);
    DescendsLater(s, s', h.line, Logged(h), Logged(h));
  }

  lemma LandedKeeps(o: ObjectId, s: State, s': State, w: C.Worker)
    requires Inv(o, s) && Landed(o, s, s', w)
    ensures Inv(o, s')
  {
    assert HostInv(o, s, w);
    LandedHost(o, s, s', w);
    OneHostKeeps(o, s, s', w, s'.cluster.files[(w, o)]);
  }

  lemma ShapeKeeps(ttl: nat, o: ObjectId, s: State, step: Step, s': State)
    requires Inv(o, s) && Shape(ttl, o, s, step, s')
    ensures Inv(o, s')
  {
    if Gates(s, step) {
      if Lands(o, s, step) {
        LandedKeeps(o, s, s', step.worker);
      } else {
        SteppedKeeps(o, s, s', step.worker, s.hosts[step.worker].run.home.db.main);
      }
    } else {
      match step
      case Visit(w) =>
        if Spawns(ttl, s, o, w) {
          PlacedKeeps(o, s, s', w, Visited(ttl, o, s, w));
        } else {
          PassiveKeeps(o, s, s');
        }
      case LoseFile(w) =>
        if Resident(s, w) {
          PassiveKeeps(o, s, s');
        } else {
          LostKeeps(o, s, s', w);
        }
      case Local(w, own) =>
        if w !in s.hosts || own.Spawn? {
          PassiveKeeps(o, s, s');
        } else {
          SteppedKeeps(o, s, s', w, s.hosts[w].run.home.shipped);
        }
      case _ => PassiveKeeps(o, s, s');
    }
  }

  lemma InvForStep(o: ObjectId, s: State, step: Step)
    requires Inv(o, s)
    ensures InvFor(o, s, step)
  {
  }

  lemma StepKeeps(ttl: nat, o: ObjectId, s: State, step: Step)
    requires Inv(o, s)
    ensures Inv(o, Apply(ttl, o, s, step))
  {
    InvForStep(o, s, step);
    StepShape(ttl, o, s, step);
    ShapeKeeps(ttl, o, s, step, Apply(ttl, o, s, step));
  }

  lemma {:induction false} InvFrom(ttl: nat, o: ObjectId, s: State, steps: seq<Step>)
    requires Inv(o, s)
    ensures Inv(o, From(ttl, o, s, steps))
  {
    if steps != [] {
      InvFrom(ttl, o, s, steps[..|steps| - 1]);
      StepKeeps(ttl, o, From(ttl, o, s, steps[..|steps| - 1]), steps[|steps| - 1]);
    }
  }

  lemma InvAlways(ttl: nat, o: ObjectId, steps: seq<Step>)
    ensures Inv(o, After(ttl, o, steps))
  {
    InvFrom(ttl, o, INIT, steps);
  }

  // ---- Both machines are in here ------------------------------------------------------

  function ClusterSteps(ttl: nat, o: ObjectId, steps: seq<Step>): seq<C.Step> {
    if steps == [] then []
    else
      var front := steps[..|steps| - 1];
      ClusterSteps(ttl, o, front) + [Shared(o, After(ttl, o, front), steps[|steps| - 1])]
  }

  /** The cluster's part of a run is a run of the cluster, so whatever holds of those holds here. */
  lemma {:induction false} ClusterRuns(ttl: nat, o: ObjectId, steps: seq<Step>)
    ensures After(ttl, o, steps).cluster == C.From(ttl, C.INIT, ClusterSteps(ttl, o, steps))
  {
    if steps != [] {
      var front := steps[..|steps| - 1];
      ClusterRuns(ttl, o, front);
      ApplyCluster(ttl, o, After(ttl, o, front), steps[|steps| - 1]);
    }
  }

  lemma ApplyCluster(ttl: nat, o: ObjectId, s: State, step: Step)
    ensures Apply(ttl, o, s, step).cluster == C.Apply(ttl, s.cluster, Shared(o, s, step))
  {
  }

  lemma FromOne(ttl: nat, o: ObjectId, s: State, step: Step)
    ensures From(ttl, o, s, [step]) == Apply(ttl, o, s, step)
  {
    assert [step][..0] == [];
  }

  lemma {:induction false} FromConcat(ttl: nat, o: ObjectId, s: State, a: seq<Step>, b: seq<Step>)
    ensures From(ttl, o, s, a + b) == From(ttl, o, From(ttl, o, s, a), b)
  {
    if b == [] {
      assert a + b == a;
    } else {
      assert (a + b)[..|a + b| - 1] == a + b[..|b| - 1];
      FromConcat(ttl, o, s, a, b[..|b| - 1]);
    }
  }

  /**
   Over every run: each worker's file is the replay of everything logged since the object was
   nothing, through whatever workers and restores it came; the stored snapshot is such a replay
   too; and every worker's task is a run of the object's machine over the file it started from,
   so that everything proved of those runs holds of it.
   */
  lemma HostsAreReplays(ttl: nat, o: ObjectId, steps: seq<Step>, w: C.Worker)
    ensures var s := After(ttl, o, steps);
            && Held(s.cluster, o) == O.Replay(BLANK, s.stored)
            && ((w, o) in s.cluster.files <==> w in s.hosts)
            && (w in s.hosts ==>
                  var h := s.hosts[w];
                  && h.run == O.After(PLACED, Restored(O.Replay(BLANK, h.base)), h.trace)
                  && s.cluster.files[(w, o)] == h.run.home.db.committed
                  && (!h.run.phase.Ready? && !h.run.phase.Running? ==>
                        h.run.home.db.committed == O.Replay(BLANK, Logged(h)))
                  && (h.run.phase.Released? ==> h.run.home.db.main == O.Replay(BLANK, Logged(h))))
  {
    InvAlways(ttl, o, steps);
    var s := After(ttl, o, steps);
    if w in s.hosts {
      assert HostInv(o, s, w);
      HostFacts(s.hosts[w]);
    }
  }
}

/**
 Workers, the registry and the blob store as one machine. A worker claims under the
 node id it last registered, spawns a task that keeps the epoch it was granted, and
 ships under that epoch for as long as that task lives, whether or not the lease is
 still its own. A ship may also fail between its two puts and leave the snapshot alone
 behind. Claims and ships are atomic steps; a step that is not enabled changes nothing.
 */
module Cluster {
  import opened Prelude
  import opened Registry
  import opened ObjectStore

  type Worker = nat

  datatype Grant = Grant(objectId: ObjectId, node: NodeId, epoch: nat, first: bool)

  datatype Task = Task(worker: Worker, objectId: ObjectId, epoch: nat)

  /** A snapshot put, followed by its manifest or not. */
  datatype Shipment = Shipment(objectId: ObjectId, epoch: nat, bytes: Bytes, whole: bool)

  datatype State = State(
    now: int,
    reg: Tables,
    owner: map<NodeId, Worker>,             // who registered an id
    identity: map<Worker, NodeId>,          // the id a worker currently speaks as
    tasks: set<Task>,
    files: map<(Worker, ObjectId), Bytes>,
    store: Store,
    grants: seq<Grant>,                     // every claim answered `acquired`
    ships: seq<Shipment>,                   // every ship that landed
    puts: seq<Shipment>)                    // and every snapshot put, those without their manifest included

  datatype Step =
    | Tick(dt: nat)
    | Register(worker: Worker)
    | Beat(node: NodeId)
    | Reap
    | Deregister(node: NodeId)
    | Release(objectId: ObjectId, node: NodeId)
    | Claim(objectId: ObjectId, node: NodeId)
    | Spawn(worker: Worker, objectId: ObjectId)
    | End(task: Task)
    | Write(worker: Worker, objectId: ObjectId, bytes: Bytes)
    | LoseFile(worker: Worker, objectId: ObjectId)
    | Ship(task: Task, bytes: Bytes)
    | Tear(task: Task, bytes: Bytes)

  const INIT := State(0, EMPTY, map[], map[], {}, map[], Store(map[], map[]), [], [], [])

  function ClaimOutcome(ttl: nat, s: State, o: ObjectId, n: NodeId): Result<Lease, RegistryError> {
    Claimed(ttl, s.reg, o, Some(n), s.now).1
  }

  predicate Acquires(ttl: nat, s: State, o: ObjectId, n: NodeId) {
    ClaimOutcome(ttl, s, o, n).Success? && ClaimOutcome(ttl, s, o, n).value.acquired
  }

  function AfterClaim(ttl: nat, s: State, o: ObjectId, n: NodeId): State {
    s.(reg := Claimed(ttl, s.reg, o, Some(n), s.now).0,
    grants := if Acquires(ttl, s, o, n)
      then s.grants + [Grant(o, n, ClaimOutcome(ttl, s, o, n).value.epoch, o !in Reaped(ttl, s.reg, s.now).leases)]
      else s.grants)
  }

  /** What the spawned task finds on disk: the worker's own file if it has one, else the last shipped snapshot. */
  function SpawnFile(s: State, w: Worker, o: ObjectId): Bytes {
    if (w, o) in s.files then s.files[(w, o)]
    else if o in s.store.manifests && o in s.store.snapshots then s.store.snapshots[o]
    else BLANK
  }

  function Apply(ttl: nat, s: State, step: Step): State {
    match step
    case Tick(dt) => s.(now := s.now + dt)
    case Register(w) =>
      var id := s.reg.nextNode;
      s.(reg := s.reg.(nodes := s.reg.nodes[id := s.now], nextNode := id + 1),
      owner := s.owner[id := w], identity := s.identity[w := id])
    case Beat(n) => s.(reg := Beaten(ttl, s.reg, n, s.now))
    case Reap => s.(reg := Reaped(ttl, s.reg, s.now))
    case Deregister(n) => s.(reg := WithoutNodes(s.reg, {n}))
    case Release(o, n) => s.(reg := Released(s.reg, o, n))
    case Claim(o, n) => AfterClaim(ttl, s, o, n)
    case Spawn(w, o) =>
      if w !in s.identity then s
      else
        var n := s.identity[w];
        var s1 := AfterClaim(ttl, s, o, n);
        if !Acquires(ttl, s, o, n) then s1
        else s1.(tasks := s.tasks + {Task(w, o, ClaimOutcome(ttl, s, o, n).value.epoch)},
             files := s.files[(w, o) := SpawnFile(s, w, o)])
    case End(t) => s.(tasks := s.tasks - {t})
    case Write(w, o, bytes) => if (w, o) in s.files then s.(files := s.files[(w, o) := bytes]) else s
    case LoseFile(w, o) => s.(files := s.files - {(w, o)})
    case Ship(t, bytes) =>
      if t !in s.tasks then s
      else
        s.(files := s.files[(t.worker, t.objectId) := bytes],
        store := Uploaded(s.store, t.objectId, t.epoch, bytes, NoFault),
        ships := if Fenced(s.store, t.objectId, t.epoch) then s.ships
          else s.ships + [Shipment(t.objectId, t.epoch, bytes, true)],
        puts := if Fenced(s.store, t.objectId, t.epoch) then s.puts
          else s.puts + [Shipment(t.objectId, t.epoch, bytes, true)])
    case Tear(t, bytes) =>
      if t !in s.tasks || Fenced(s.store, t.objectId, t.epoch) then s
      else
        s.(store := Uploaded(s.store, t.objectId, t.epoch, bytes, AtManifest),
        puts := s.puts + [Shipment(t.objectId, t.epoch, bytes, false)])
  }

  function From(ttl: nat, s: State, steps: seq<Step>): State {
    if steps == [] then s
    else Apply(ttl, From(ttl, s, steps[..|steps| - 1]), steps[|steps| - 1])
  }

  // ---- Epochs --------------------------------------------------------------------

  ghost predicate Granted(s: State, o: ObjectId, n: NodeId, epoch: nat) {
    exists i :: 0 <= i < |s.grants| && s.grants[i].objectId == o && s.grants[i].node == n && s.grants[i].epoch == epoch
  }

  ghost predicate GrantsBounded(s: State) {
    forall i | 0 <= i < |s.grants| :: var g := s.grants[i];
      && g.objectId in s.reg.epochs && g.epoch <= s.reg.epochs[g.objectId]
      && (g.objectId in s.reg.leases && g.epoch == s.reg.epochs[g.objectId] ==> g.node == s.reg.leases[g.objectId])
  }

  ghost predicate HoldersGranted(s: State) {
    forall o | o in s.reg.leases :: o in s.reg.epochs && Granted(s, o, s.reg.leases[o], s.reg.epochs[o])
  }

  /** A first grant lies strictly above every earlier one; a re-claim repeats its holder's last. */
  ghost predicate GrantsOrdered(s: State) {
    && (forall i, j | 0 <= i < j < |s.grants| && s.grants[i].objectId == s.grants[j].objectId ::
          && s.grants[i].epoch <= s.grants[j].epoch
          && (s.grants[j].first ==> s.grants[i].epoch < s.grants[j].epoch)
          && (s.grants[i].epoch == s.grants[j].epoch ==> s.grants[i].node == s.grants[j].node))
    && (forall j | 0 <= j < |s.grants| && !s.grants[j].first :: Repeats(s.grants, j))
  }

  /** Some earlier grant gave the same object to the same node under the same epoch. */
  ghost predicate Repeats(grants: seq<Grant>, j: nat)
    requires j < |grants|
  {
    exists i :: 0 <= i < j && grants[i].objectId == grants[j].objectId &&
                grants[i].node == grants[j].node && grants[i].epoch == grants[j].epoch
  }

  ghost predicate EpochInv(s: State) {
    TablesValid(s.reg) && GrantsBounded(s) && HoldersGranted(s) && GrantsOrdered(s)
  }

  /** Tables that lost leases and nodes, or gained beats, but kept every epoch. */
  ghost predicate Thinned(r: Tables, r': Tables) {
    && r'.epochs == r.epochs
    && (forall o | o in r'.leases :: o in r.leases && r'.leases[o] == r.leases[o])
  }

  lemma ThinnedKeeps(s: State, s': State)
    requires EpochInv(s) && s'.grants == s.grants && TablesValid(s'.reg) && Thinned(s.reg, s'.reg)
    ensures EpochInv(s')
  {
  }

  lemma GrantExtends(s: State, s': State, o: ObjectId, n: NodeId, epoch: nat)
    requires s.grants <= s'.grants && Granted(s, o, n, epoch)
    ensures Granted(s', o, n, epoch)
  {
  }

  /** A re-claim leaves the tables alone; a first grant takes the lease with a higher epoch. */
  ghost predicate GrantsOne(s: State, s': State, g: Grant) {
    var o := g.objectId;
    && s'.grants == s.grants + [g]
    && if g.first then
         && o !in s.reg.leases && g.node in s.reg.nodes
         && s'.reg == s.reg.(leases := s.reg.leases[o := g.node], epochs := s.reg.epochs[o := g.epoch])
         && g.epoch >= 1 && (o in s.reg.epochs ==> g.epoch > s.reg.epochs[o])
       else
         && o in s.reg.leases && s.reg.leases[o] == g.node
         && s'.reg == s.reg && o in s.reg.epochs && g.epoch == s.reg.epochs[o]
  }

  lemma ClaimShape(ttl: nat, s: State, o: ObjectId, n: NodeId)
    requires TablesValid(s.reg)
    ensures var s1 := s.(reg := Reaped(ttl, s.reg, s.now));
            var s' := AfterClaim(ttl, s, o, n);
            && TablesValid(s1.reg)
            && (!Acquires(ttl, s, o, n) ==> s' == s1)
            && (Acquires(ttl, s, o, n) ==>
                  GrantsOne(s1, s', Grant(o, n, ClaimOutcome(ttl, s, o, n).value.epoch, o !in s1.reg.leases)))
  {
  }

  lemma GrantsOneBounded(s: State, s': State, g: Grant)
    requires TablesValid(s.reg) && GrantsBounded(s) && GrantsOne(s, s', g)
    ensures TablesValid(s'.reg) && GrantsBounded(s')
  {
  }

  lemma GrantsOneHolders(s: State, s': State, g: Grant)
    requires HoldersGranted(s) && GrantsOne(s, s', g)
    ensures HoldersGranted(s')
  {
    assert s'.grants[|s.grants|] == g;
    assert Granted(s', g.objectId, g.node, g.epoch);
    forall p | p in s'.reg.leases ensures p in s'.reg.epochs && Granted(s', p, s'.reg.leases[p], s'.reg.epochs[p]) {
      if p != g.objectId {
        assert Granted(s, p, s.reg.leases[p], s.reg.epochs[p]);
        GrantExtends(s, s', p, s.reg.leases[p], s.reg.epochs[p]);
      }
    }
  }

  lemma ClaimKeeps(ttl: nat, s: State, o: ObjectId, n: NodeId)
    requires EpochInv(s)
    ensures EpochInv(AfterClaim(ttl, s, o, n))
  {
    var s1 := s.(reg := Reaped(ttl, s.reg, s.now));
    var s' := AfterClaim(ttl, s, o, n);
    ClaimShape(ttl, s, o, n);
    ThinnedKeeps(s, s1);
    if Acquires(ttl, s, o, n) {
      var g := Grant(o, n, ClaimOutcome(ttl, s, o, n).value.epoch, o !in s1.reg.leases);
      GrantsOneBounded(s1, s', g);
      GrantsOneHolders(s1, s', g);
      GrantAppended(s1, s', g);
    }
  }

  lemma GrantAppended(s: State, s': State, g: Grant)
    requires GrantsOrdered(s) && GrantsBounded(s) && HoldersGranted(s) && GrantsOne(s, s', g)
    ensures GrantsOrdered(s')
  {
    forall i, j | 0 <= i < j < |s'.grants| && s'.grants[i].objectId == s'.grants[j].objectId
      ensures && s'.grants[i].epoch <= s'.grants[j].epoch
              && (s'.grants[j].first ==> s'.grants[i].epoch < s'.grants[j].epoch)
              && (s'.grants[i].epoch == s'.grants[j].epoch ==> s'.grants[i].node == s'.grants[j].node)
    {
      assert s'.grants[i] == s.grants[i];
    }
    forall j | 0 <= j < |s'.grants| && !s'.grants[j].first ensures Repeats(s'.grants, j) {
      if j < |s.grants| {
        assert Repeats(s.grants, j);
        RepeatsExtends(s.grants, s'.grants, j);
      } else {
        assert Granted(s, g.objectId, g.node, g.epoch);
        var i :| 0 <= i < |s.grants| && s.grants[i].objectId == g.objectId &&
          s.grants[i].node == g.node && s.grants[i].epoch == g.epoch;
        assert s'.grants[i] == s.grants[i];
      }
    }
  }

  lemma RepeatsExtends(grants: seq<Grant>, more: seq<Grant>, j: nat)
    requires grants <= more && j < |grants| && Repeats(grants, j)
    ensures Repeats(more, j)
  {
  }

  lemma WithoutNodesThins(r: Tables, gone: set<NodeId>)
    requires TablesValid(r)
    ensures TablesValid(WithoutNodes(r, gone)) && Thinned(r, WithoutNodes(r, gone))
  {
  }

  lemma PlainStepThins(ttl: nat, s: State, step: Step)
    requires TablesValid(s.reg) && !step.Claim? && !step.Spawn?
    ensures var s' := Apply(ttl, s, step); s'.grants == s.grants && TablesValid(s'.reg) && Thinned(s.reg, s'.reg)
  {
    match step
    case Reap => WithoutNodesThins(s.reg, Dead(ttl, s.reg, s.now));
    case Deregister(n) => WithoutNodesThins(s.reg, {n});
    case _ =>
  }

  lemma SpawnStep(ttl: nat, s: State, w: Worker, o: ObjectId)
    requires EpochInv(s)
    ensures EpochInv(Apply(ttl, s, Spawn(w, o)))
  {
    if w in s.identity {
      var s1 := AfterClaim(ttl, s, o, s.identity[w]);
      var s' := Apply(ttl, s, Spawn(w, o));
      ClaimKeeps(ttl, s, o, s.identity[w]);
      assert s'.reg == s1.reg && s'.grants == s1.grants;
      ThinnedKeeps(s1, s');
    }
  }

  lemma EpochStep(ttl: nat, s: State, step: Step)
    requires EpochInv(s)
    ensures EpochInv(Apply(ttl, s, step))
  {
    match step
    case Claim(o, n) => ClaimKeeps(ttl, s, o, n);
    case Spawn(w, o) => SpawnStep(ttl, s, w, o);
    case _ =>
      PlainStepThins(ttl, s, step);
      ThinnedKeeps(s, Apply(ttl, s, step));
  }

  lemma {:induction false} EpochsAlways(ttl: nat, steps: seq<Step>)
    ensures EpochInv(From(ttl, INIT, steps))
  {
    if steps != [] {
      EpochsAlways(ttl, steps[..|steps| - 1]);
      EpochStep(ttl, From(ttl, INIT, steps[..|steps| - 1]), steps[|steps| - 1]);
    }
  }

  /**
   In every run: a first grant's epoch lies strictly above all earlier grants of the object,
   a re-claim repeats its holder's epoch, equal epochs mean the same node, and the current
   holder was granted exactly the object's current, and highest, epoch.
   */
  lemma EpochsIdentifyHolders(ttl: nat, steps: seq<Step>)
    ensures var s := From(ttl, INIT, steps);
            && GrantsOrdered(s)
            && (forall o | o in s.reg.leases ::
                  && o in s.reg.epochs && s.reg.leases[o] in s.reg.nodes
                  && Granted(s, o, s.reg.leases[o], s.reg.epochs[o]))
            && (forall i | 0 <= i < |s.grants| ::
                  && s.grants[i].objectId in s.reg.epochs
                  && s.grants[i].epoch <= s.reg.epochs[s.grants[i].objectId])
  {
    EpochsAlways(ttl, steps);
  }

  lemma EpochMonotone(ttl: nat, s: State, step: Step, o: ObjectId)
    requires o in s.reg.epochs
    ensures o in Apply(ttl, s, step).reg.epochs && Apply(ttl, s, step).reg.epochs[o] >= s.reg.epochs[o]
  {
    assert Reaped(ttl, s.reg, s.now).epochs == s.reg.epochs;
  }

  /** Nothing lowers an epoch, from any state, over any run. */
  lemma {:induction false} EpochsNeverFall(ttl: nat, s: State, steps: seq<Step>, o: ObjectId)
    requires o in s.reg.epochs
    ensures o in From(ttl, s, steps).reg.epochs
    ensures From(ttl, s, steps).reg.epochs[o] >= s.reg.epochs[o]
  {
    if steps != [] {
      EpochsNeverFall(ttl, s, steps[..|steps| - 1], o);
      EpochMonotone(ttl, From(ttl, s, steps[..|steps| - 1]), steps[|steps| - 1], o);
    }
  }

  // ---- Holders -------------------------------------------------------------------

  /** The step deletes the nodes past their ttl: a reap, or a claim, which begins with one. */
  predicate Reaps(s: State, step: Step) {
    step.Reap? || step.Claim? || (step.Spawn? && step.worker in s.identity)
  }

  /**
   A node's row moves only by its own accepted beat, and goes only when the node deregisters or
   is past its ttl at a reap.
   */
  lemma NodeRowMoves(ttl: nat, s: State, step: Step, n: NodeId)
    requires n in s.reg.nodes && n < s.reg.nextNode
    ensures var s' := Apply(ttl, s, step);
            && (n !in s'.reg.nodes <==> step == Deregister(n) || (Reaps(s, step) && !Live(ttl, s.reg, n, s.now)))
            && (n in s'.reg.nodes ==>
                  s'.reg.nodes[n] == if step == Beat(n) && Live(ttl, s.reg, n, s.now) then s.now else s.reg.nodes[n])
  {
    match step
    case Claim(o, m) => ClaimedNodes(ttl, s, o, m);
    case Spawn(w, o) =>
      if w in s.identity {
        ClaimedNodes(ttl, s, o, s.identity[w]);
      }
    case _ =>
  }

  lemma ClaimedNodes(ttl: nat, s: State, o: ObjectId, n: NodeId)
    ensures AfterClaim(ttl, s, o, n).reg.nodes == Reaped(ttl, s.reg, s.now).nodes
  {
  }

  /** What a claim by `m` makes of one object's row: a live holder stands, the others make room. */
  lemma ClaimedLease(ttl: nat, s: State, p: ObjectId, m: NodeId, o: ObjectId)
    requires TablesValid(s.reg) && o in s.reg.leases
    ensures var n := s.reg.leases[o];
            var r := AfterClaim(ttl, s, p, m).reg;
            && (Live(ttl, s.reg, n, s.now) ==> o in r.leases && r.leases[o] == n && r.epochs[o] == s.reg.epochs[o])
            && (!Live(ttl, s.reg, n, s.now) ==> o !in r.leases || r.leases[o] != n)
  {
  }

  /**
   A held lease is lost exactly by its holder's own release, its holder's deregistration, or a
   reap that finds its holder past the ttl; nobody else's step touches it.
   */
  lemma LeaseLostExactly(ttl: nat, s: State, step: Step, o: ObjectId)
    requires TablesValid(s.reg) && o in s.reg.leases
    ensures var n := s.reg.leases[o];
            var r := Apply(ttl, s, step).reg;
            (o in r.leases && r.leases[o] == n) <==>
            !(step == Release(o, n) || step == Deregister(n) || (Reaps(s, step) && !Live(ttl, s.reg, n, s.now)))
  {
    match step
    case Claim(p, m) => ClaimedLease(ttl, s, p, m, o);
    case Spawn(w, p) =>
      if w in s.identity {
        ClaimedLease(ttl, s, p, s.identity[w], o);
      }
    case _ =>
  }

  /**
   A claim is decided by liveness alone: a live holder keeps the object and is named under its
   epoch; without one, a live asker gets it under the next epoch; a dead asker gets nothing.
   */
  lemma ClaimDecided(ttl: nat, s: State, o: ObjectId, m: NodeId)
    requires TablesValid(s.reg)
    ensures var held := o in s.reg.leases && Live(ttl, s.reg, s.reg.leases[o], s.now);
            var next := if o in s.reg.epochs then s.reg.epochs[o] + 1 else 1;
            var r := AfterClaim(ttl, s, o, m).reg;
            && (held ==>
                  && ClaimOutcome(ttl, s, o, m) ==
                     Success(Lease(o, s.reg.leases[o], s.reg.leases[o] == m, s.reg.epochs[o]))
                  && o in r.leases && r.leases[o] == s.reg.leases[o] && r.epochs == s.reg.epochs)
            && (!held && Live(ttl, s.reg, m, s.now) ==>
                  && ClaimOutcome(ttl, s, o, m) == Success(Lease(o, m, true, next))
                  && o in r.leases && r.leases[o] == m && r.epochs == s.reg.epochs[o := next])
            && (!held && !Live(ttl, s.reg, m, s.now) ==>
                  ClaimOutcome(ttl, s, o, m) == Failure(StoreFailed) && o !in r.leases && r.epochs == s.reg.epochs)
  {
  }

  // ---- Liveness ------------------------------------------------------------------

  /** A claim answered `acquired` went to a node live at that instant. */
  lemma AcquiredIsLive(ttl: nat, s: State, o: ObjectId, n: NodeId)
    requires TablesValid(s.reg) && Acquires(ttl, s, o, n)
    ensures Live(ttl, s.reg, n, s.now) && Live(ttl, AfterClaim(ttl, s, o, n).reg, n, s.now)
    ensures AfterClaim(ttl, s, o, n).reg.leases[o] == n
  {
  }

  lemma DeadStep(ttl: nat, s: State, step: Step, n: NodeId)
    requires n < s.reg.nextNode && !Live(ttl, s.reg, n, s.now)
    ensures var s' := Apply(ttl, s, step); n < s'.reg.nextNode && !Live(ttl, s'.reg, n, s'.now)
  {
  }

  /** A node past its ttl is never live again under that id, whatever happens later. */
  lemma {:induction false} DeadStaysDead(ttl: nat, s: State, steps: seq<Step>, n: NodeId)
    requires n < s.reg.nextNode && !Live(ttl, s.reg, n, s.now)
    ensures !Live(ttl, From(ttl, s, steps).reg, n, From(ttl, s, steps).now)
    ensures n < From(ttl, s, steps).reg.nextNode
  {
    if steps != [] {
      DeadStaysDead(ttl, s, steps[..|steps| - 1], n);
      DeadStep(ttl, From(ttl, s, steps[..|steps| - 1]), steps[|steps| - 1], n);
    }
  }

  // ---- Punctual nodes ---------------------------------------------------------------

  /** When the node last tried to beat, over a run that starts with its registration at `since`. */
  function LastTry(ttl: nat, s: State, steps: seq<Step>, n: NodeId, since: int): int {
    if steps == [] then since
    else if steps[|steps| - 1] == Beat(n) then From(ttl, s, steps[..|steps| - 1]).now
    else LastTry(ttl, s, steps[..|steps| - 1], n, since)
  }

  /** At no point of the run is the node's last try more than two advertised intervals old. */
  ghost predicate Punctual(ttl: nat, s: State, steps: seq<Step>, n: NodeId, since: int) {
    forall k | 0 <= k <= |steps| ::
      From(ttl, s, steps[..k]).now <= LastTry(ttl, s, steps[..k], n, since) + 2 * HeartbeatInterval(ttl)
  }

  /** Two missed-beat intervals fit inside the ttl exactly from three seconds up. */
  lemma TwoIntervalsFit(ttl: nat)
    ensures 2 * HeartbeatInterval(ttl) < ttl <==> ttl >= 3
  {
  }

  /**
   For every ttl of at least 3: a node that tries at least every two advertised intervals and
   does not deregister is never reaped, and each of its beats finds it live, over any run.
   */
  lemma {:induction false} PunctualStaysLive(ttl: nat, s: State, steps: seq<Step>, n: NodeId)
    requires ttl >= 3 && n in s.reg.nodes && n < s.reg.nextNode
    requires Punctual(ttl, s, steps, n, s.reg.nodes[n])
    requires Deregister(n) !in steps
    ensures var t := From(ttl, s, steps);
            && n in t.reg.nodes && t.reg.nodes[n] == LastTry(ttl, s, steps, n, s.reg.nodes[n])
            && Live(ttl, t.reg, n, t.now) && n < t.reg.nextNode
  {
    var since := s.reg.nodes[n];
    TwoIntervalsFit(ttl);
    assert steps[..|steps|] == steps;
    if steps != [] {
      var front := steps[..|steps| - 1];
      assert Punctual(ttl, s, front, n, since) by {
        assert forall k | 0 <= k <= |front| :: front[..k] == steps[..k];
      }
      PunctualStaysLive(ttl, s, front, n);
      PunctualStep(ttl, From(ttl, s, front), steps[|steps| - 1], n);
    }
    assert From(ttl, s, steps[..|steps|]).now
        <= LastTry(ttl, s, steps[..|steps|], n, since) + 2 * HeartbeatInterval(ttl);
  }

  lemma ClaimKeepsLive(ttl: nat, s: State, o: ObjectId, m: NodeId, n: NodeId)
    requires Live(ttl, s.reg, n, s.now)
    ensures var r := AfterClaim(ttl, s, o, m).reg;
            n in r.nodes && r.nodes[n] == s.reg.nodes[n] && r.nextNode == s.reg.nextNode
  {
  }

  lemma PunctualStep(ttl: nat, s: State, step: Step, n: NodeId)
    requires Live(ttl, s.reg, n, s.now) && n < s.reg.nextNode && step != Deregister(n)
    ensures var s' := Apply(ttl, s, step);
            && n in s'.reg.nodes && n < s'.reg.nextNode
            && s'.reg.nodes[n] == if step == Beat(n) then s.now else s.reg.nodes[n]
  {
    match step
    case Claim(o, m) => ClaimKeepsLive(ttl, s, o, m, n);
    case Spawn(w, o) =>
      if w in s.identity {
        ClaimKeepsLive(ttl, s, o, s.identity[w], n);
      }
    case _ =>
  }

  /** The advertised interval is a third of the ttl, rounded down, and never under a second. */
  lemma IntervalIsAThird(ttl: nat)
    ensures var interval := HeartbeatInterval(ttl);
            if ttl < 3 then interval == 1 else 3 * interval <= ttl < 3 * (interval + 1)
  {
  }

  /**
   The holder of an object keeps it, under the same epoch, for as long as it beats at least every
   two intervals and neither releases it nor deregisters, whoever else claims, spawns, releases or
   dies; and every claim in the meantime is answered with its name.
   */
  lemma {:induction false} PunctualHolderKeepsLease(ttl: nat, s: State, steps: seq<Step>, o: ObjectId, m: NodeId)
    requires ttl >= 3 && TablesValid(s.reg) && o in s.reg.leases
    requires Punctual(ttl, s, steps, s.reg.leases[o], s.reg.nodes[s.reg.leases[o]])
    requires Deregister(s.reg.leases[o]) !in steps && Release(o, s.reg.leases[o]) !in steps
    ensures var n := s.reg.leases[o];
            var t := From(ttl, s, steps);
            && TablesValid(t.reg) && o in t.reg.leases && t.reg.leases[o] == n && t.reg.epochs[o] == s.reg.epochs[o]
            && ClaimOutcome(ttl, t, o, m) == Success(Lease(o, n, n == m, s.reg.epochs[o]))
  {
    var n := s.reg.leases[o];
    PunctualStaysLive(ttl, s, steps, n);
    if steps != [] {
      var front := steps[..|steps| - 1];
      PunctualPrefix(ttl, s, steps, n, s.reg.nodes[n]);
      PunctualHolderKeepsLease(ttl, s, front, o, m);
      PunctualStaysLive(ttl, s, front, n);
      HolderStep(ttl, From(ttl, s, front), steps[|steps| - 1], o);
    }
    ClaimDecided(ttl, From(ttl, s, steps), o, m);
  }

  lemma PunctualPrefix(ttl: nat, s: State, steps: seq<Step>, n: NodeId, since: int)
    requires steps != [] && Punctual(ttl, s, steps, n, since)
    ensures Punctual(ttl, s, steps[..|steps| - 1], n, since)
  {
    var front := steps[..|steps| - 1];
    assert forall k | 0 <= k <= |front| :: front[..k] == steps[..k];
  }

  lemma HolderStep(ttl: nat, s: State, step: Step, o: ObjectId)
    requires TablesValid(s.reg) && o in s.reg.leases && Live(ttl, s.reg, s.reg.leases[o], s.now)
    requires step != Release(o, s.reg.leases[o]) && step != Deregister(s.reg.leases[o])
    ensures var r := Apply(ttl, s, step).reg;
            TablesValid(r) && o in r.leases && r.leases[o] == s.reg.leases[o] && r.epochs[o] == s.reg.epochs[o]
  {
    LeaseLostExactly(ttl, s, step, o);
    match step
    case Claim(p, m) =>
      ClaimShape(ttl, s, p, m);
      ClaimedLease(ttl, s, p, m, o);
    case Spawn(w, p) =>
      if w in s.identity {
        ClaimShape(ttl, s, p, s.identity[w]);
        ClaimedLease(ttl, s, p, s.identity[w], o);
      }
    case _ => PlainStepThins(ttl, s, step);
  }

  /** Below three seconds the same punctuality is not enough: a node exactly as punctual as
      `PunctualStaysLive` asks is reaped two intervals after its registration. */
  lemma ShortTtlReapsPunctualNode(ttl: nat)
    requires ttl < 3
    ensures var s := Apply(ttl, INIT, Register(7));
            var steps := [Tick(2 * HeartbeatInterval(ttl)), Reap];
            && 0 in s.reg.nodes && 0 < s.reg.nextNode && Deregister(0) !in steps
            && Punctual(ttl, s, steps, 0, s.reg.nodes[0])
            && 0 !in From(ttl, s, steps).reg.nodes
  {
    var s := Apply(ttl, INIT, Register(7));
    var steps := [Tick(2 * HeartbeatInterval(ttl)), Reap];
    assert steps[..2] == steps && steps[..1] == [Tick(2 * HeartbeatInterval(ttl))] && steps[..0] == [];
    assert From(ttl, s, steps[..1]) == Apply(ttl, s, steps[0]);
    assert From(ttl, s, steps).now == 2 * HeartbeatInterval(ttl);
    forall k | 0 <= k <= |steps|
      ensures From(ttl, s, steps[..k]).now <= LastTry(ttl, s, steps[..k], 0, 0) + 2 * HeartbeatInterval(ttl)
    {
      assert k == 0 || k == 1 || k == 2;
      assert steps[..1][..0] == [] && steps[..2][..1] == steps[..1];
      assert LastTry(ttl, s, steps[..1], 0, 0) == 0;
      assert LastTry(ttl, s, steps[..2], 0, 0) == 0;
    }
  }
}

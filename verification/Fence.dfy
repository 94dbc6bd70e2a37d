/** What the epoch fence guarantees about the blob store, over every run of the cluster. */
module Fence {
  import opened Prelude
  import opened Registry
  import opened ObjectStore
  import opened Cluster

  // ---- Tasks ship under epochs granted to their own worker ------------------------

  ghost predicate OwnersInv(s: State) {
    && (forall n | n in s.owner :: n < s.reg.nextNode)
    && (forall w | w in s.identity :: s.identity[w] in s.owner && s.owner[s.identity[w]] == w)
  }

  ghost predicate GrantedTo(s: State, t: Task) {
    exists n :: n in s.owner && s.owner[n] == t.worker && Granted(s, t.objectId, n, t.epoch)
  }

  ghost predicate TasksInv(s: State) {
    forall t | t in s.tasks :: GrantedTo(s, t)
  }

  lemma GrantedToLater(s: State, s': State, t: Task)
    requires GrantedTo(s, t) && s.grants <= s'.grants
    requires forall n | n in s.owner :: n in s'.owner && s'.owner[n] == s.owner[n]
    ensures GrantedTo(s', t)
  {
  }

  lemma OwnersStep(ttl: nat, s: State, step: Step)
    requires OwnersInv(s)
    ensures var s' := Apply(ttl, s, step);
            && OwnersInv(s') && s.grants <= s'.grants
            && (forall n | n in s.owner :: n in s'.owner && s'.owner[n] == s.owner[n])
  {
  }

  lemma TasksStep(ttl: nat, s: State, step: Step)
    requires OwnersInv(s) && TasksInv(s)
    ensures TasksInv(Apply(ttl, s, step))
  {
    var s' := Apply(ttl, s, step);
    OwnersStep(ttl, s, step);
    forall t | t in s'.tasks ensures GrantedTo(s', t) {
      if t in s.tasks {
        GrantedToLater(s, s', t);
      } else {
        assert step == Spawn(t.worker, t.objectId);
        var g := s'.grants[|s.grants|];
        assert Granted(s', g.objectId, g.node, g.epoch);
      }
    }
  }

  // ---- The store ---------------------------------------------------------------------

  function LastShip(ships: seq<Shipment>, o: ObjectId): Option<Shipment> {
    if ships == [] then None
    else if ships[|ships| - 1].objectId == o then Some(ships[|ships| - 1])
    else LastShip(ships[..|ships| - 1], o)
  }

  /** The manifest is the last whole ship's, the snapshot the last put's, which nothing outranks. */
  ghost predicate StoreInv(s: State) {
    && s.store.manifests.Keys <= s.store.snapshots.Keys
    && (forall o | o in s.store.manifests :: ManifestOf(s, o))
    && (forall o | o in s.store.snapshots :: SnapshotOf(s, o))
    && (forall i | 0 <= i < |s.ships| ::
          s.ships[i].objectId in s.store.manifests && s.ships[i].epoch <= s.store.manifests[s.ships[i].objectId])
    && (forall i, j | 0 <= i < j < |s.ships| && s.ships[i].objectId == s.ships[j].objectId ::
          s.ships[i].epoch <= s.ships[j].epoch)
  }

  ghost predicate ManifestOf(s: State, o: ObjectId)
    requires o in s.store.manifests
  {
    LastShip(s.ships, o).Some? && LastShip(s.ships, o).value.epoch == s.store.manifests[o]
  }

  ghost predicate SnapshotOf(s: State, o: ObjectId)
    requires o in s.store.snapshots
  {
    && LastShip(s.puts, o).Some?
    && var put := LastShip(s.puts, o).value;
       && put.bytes == s.store.snapshots[o]
       && (o in s.store.manifests ==> s.store.manifests[o] <= put.epoch)
       && (put.whole ==> LastShip(s.ships, o) == Some(put))
  }

  predicate Accepted(s: State, step: Step) {
    (step.Ship? || step.Tear?) && step.task in s.tasks && !Fenced(s.store, step.task.objectId, step.task.epoch)
  }

  /** Only an accepted upload touches the store, and it touches exactly its own object. */
  lemma StoreShape(ttl: nat, s: State, step: Step)
    ensures var s' := Apply(ttl, s, step);
            if Accepted(s, step) then
              var o := step.task.objectId;
              var put := Shipment(o, step.task.epoch, step.bytes, step.Ship?);
              && s'.puts == s.puts + [put]
              && s'.ships == (if step.Ship? then s.ships + [put] else s.ships)
              && s'.store.snapshots == s.store.snapshots[o := step.bytes]
              && s'.store.manifests
                 == (if step.Ship? then s.store.manifests[o := step.task.epoch] else s.store.manifests)
            else
              s'.ships == s.ships && s'.puts == s.puts && s'.store == s.store
  {
  }

  lemma LastShipStep(ships: seq<Shipment>, ship: Shipment, o: ObjectId)
    ensures LastShip(ships + [ship], o) == if ship.objectId == o then Some(ship) else LastShip(ships, o)
  {
  }

  lemma PutKeepsStore(s: State, s': State, put: Shipment)
    requires StoreInv(s) && !Fenced(s.store, put.objectId, put.epoch)
    requires s'.puts == s.puts + [put] && s'.ships == if put.whole then s.ships + [put] else s.ships
    requires s'.store.snapshots == s.store.snapshots[put.objectId := put.bytes]
    requires s'.store.manifests
          == if put.whole then s.store.manifests[put.objectId := put.epoch] else s.store.manifests
    ensures StoreInv(s')
  {
    forall o | o in s'.store.snapshots ensures SnapshotOf(s', o) {
      LastShipStep(s.puts, put, o);
      LastShipStep(s.ships, put, o);
      assert o != put.objectId ==> SnapshotOf(s, o);
    }
    forall o | o in s'.store.manifests ensures ManifestOf(s', o) {
      LastShipStep(s.ships, put, o);
      assert o in s.store.manifests ==> ManifestOf(s, o);
    }
  }

  lemma SameStoreKept(s: State, s': State)
    requires StoreInv(s) && s'.ships == s.ships && s'.puts == s.puts && s'.store == s.store
    ensures StoreInv(s')
  {
    assert forall o | o in s.store.manifests :: ManifestOf(s, o) && ManifestOf(s', o);
    assert forall o | o in s.store.snapshots :: SnapshotOf(s, o) && SnapshotOf(s', o);
  }

  lemma StoreStep(ttl: nat, s: State, step: Step)
    requires StoreInv(s)
    ensures StoreInv(Apply(ttl, s, step))
  {
    StoreShape(ttl, s, step);
    if Accepted(s, step) {
      PutKeepsStore(s, Apply(ttl, s, step), Shipment(step.task.objectId, step.task.epoch, step.bytes, step.Ship?));
    } else {
      SameStoreKept(s, Apply(ttl, s, step));
    }
  }

  lemma {:induction false} FenceAlways(ttl: nat, steps: seq<Step>)
    ensures var s := From(ttl, INIT, steps); OwnersInv(s) && TasksInv(s) && StoreInv(s)
  {
    if steps != [] {
      var s := From(ttl, INIT, steps[..|steps| - 1]);
      FenceAlways(ttl, steps[..|steps| - 1]);
      OwnersStep(ttl, s, steps[|steps| - 1]);
      TasksStep(ttl, s, steps[|steps| - 1]);
      StoreStep(ttl, s, steps[|steps| - 1]);
    }
  }

  /** Two tasks of one object on different workers never carry the same epoch: the fence can always tell them apart. */
  lemma EpochsSeparateWorkers(ttl: nat, steps: seq<Step>, a: Task, b: Task)
    requires a in From(ttl, INIT, steps).tasks && b in From(ttl, INIT, steps).tasks
    requires a.objectId == b.objectId && a.epoch == b.epoch
    ensures a.worker == b.worker
  {
    FenceAlways(ttl, steps);
    EpochsAlways(ttl, steps);
    var s := From(ttl, INIT, steps);
    var m :| m in s.owner && s.owner[m] == a.worker && Granted(s, a.objectId, m, a.epoch);
    var n :| n in s.owner && s.owner[n] == b.worker && Granted(s, b.objectId, n, b.epoch);
    var i :| 0 <= i < |s.grants| && s.grants[i].objectId == a.objectId &&
      s.grants[i].node == m && s.grants[i].epoch == a.epoch;
    var j :| 0 <= j < |s.grants| && s.grants[j].objectId == b.objectId &&
      s.grants[j].node == n && s.grants[j].epoch == b.epoch;
    assert i < j || j < i || i == j;
  }

  /**
   The manifest is the last whole ship's, whose epoch is the highest shipped; the snapshot is the
   last one put, under no lower epoch; and the two are one ship's unless that last put was of an
   upload that failed before its manifest.
   */
  lemma StoreIsLastShip(ttl: nat, steps: seq<Step>, o: ObjectId)
    ensures var s := From(ttl, INIT, steps);
            && (o in s.store.manifests <==> LastShip(s.ships, o).Some?)
            && (o in s.store.snapshots <==> LastShip(s.puts, o).Some?)
            && (forall i | 0 <= i < |s.ships| && s.ships[i].objectId == o ::
                  o in s.store.manifests && s.ships[i].epoch <= s.store.manifests[o])
            && (o in s.store.manifests ==>
                  && o in s.store.snapshots && LastShip(s.ships, o).value.epoch == s.store.manifests[o]
                  && var put := LastShip(s.puts, o).value;
                     && s.store.snapshots[o] == put.bytes && s.store.manifests[o] <= put.epoch
                     && (put.whole ==>
                           LastShip(s.ships, o) == Some(Shipment(o, s.store.manifests[o], s.store.snapshots[o], true))))
            && ((forall i | 0 <= i < |steps| :: !steps[i].Tear?) ==> s.puts == s.ships)
  {
    FenceAlways(ttl, steps);
    PutsAreRecorded(ttl, steps);
    if forall i | 0 <= i < |steps| :: !steps[i].Tear? {
      WholePutsAreShips(ttl, steps);
    }
    var s := From(ttl, INIT, steps);
    LastShipSome(s.ships, o);
    LastShipSome(s.puts, o);
    assert o in s.store.manifests ==> ManifestOf(s, o);
    assert o in s.store.snapshots ==> SnapshotOf(s, o);
  }

  ghost predicate PutsInv(s: State) {
    && (forall i | 0 <= i < |s.puts| :: s.puts[i].objectId in s.store.snapshots)
    && (forall i | 0 <= i < |s.ships| :: s.ships[i].whole)
  }

  lemma PutsGrow(s: State, s': State, put: Shipment)
    requires PutsInv(s) && s'.puts == s.puts + [put] && s'.ships == if put.whole then s.ships + [put] else s.ships
    requires s'.store.snapshots == s.store.snapshots[put.objectId := put.bytes]
    ensures PutsInv(s')
  {
    forall i | 0 <= i < |s'.puts| ensures s'.puts[i].objectId in s'.store.snapshots {
      assert i < |s.puts| ==> s'.puts[i] == s.puts[i];
    }
    forall i | 0 <= i < |s'.ships| ensures s'.ships[i].whole {
      assert i < |s.ships| ==> s'.ships[i] == s.ships[i];
    }
  }

  /** Every put left a snapshot, and every ship was whole. */
  lemma {:induction false} PutsAreRecorded(ttl: nat, steps: seq<Step>)
    ensures PutsInv(From(ttl, INIT, steps))
  {
    if steps != [] {
      var s, step := From(ttl, INIT, steps[..|steps| - 1]), steps[|steps| - 1];
      PutsAreRecorded(ttl, steps[..|steps| - 1]);
      StoreShape(ttl, s, step);
      if Accepted(s, step) {
        PutsGrow(s, Apply(ttl, s, step), Shipment(step.task.objectId, step.task.epoch, step.bytes, step.Ship?));
      }
    }
  }

  /** Without failures every put is a ship. */
  lemma {:induction false} WholePutsAreShips(ttl: nat, steps: seq<Step>)
    requires forall i | 0 <= i < |steps| :: !steps[i].Tear?
    ensures From(ttl, INIT, steps).puts == From(ttl, INIT, steps).ships
  {
    if steps != [] {
      var front := steps[..|steps| - 1];
      assert forall i | 0 <= i < |front| :: front[i] == steps[i];
      WholePutsAreShips(ttl, front);
      StoreShape(ttl, From(ttl, INIT, front), steps[|steps| - 1]);
    }
  }

  ghost predicate WithinEpochs(s: State) {
    forall o | o in s.store.manifests :: o in s.reg.epochs && s.store.manifests[o] <= s.reg.epochs[o]
  }

  lemma WithinStep(ttl: nat, s: State, step: Step)
    requires WithinEpochs(s) && TasksInv(s) && EpochInv(s)
    ensures WithinEpochs(Apply(ttl, s, step))
  {
    var s' := Apply(ttl, s, step);
    StoreShape(ttl, s, step);
    forall o | o in s'.store.manifests ensures o in s'.reg.epochs && s'.store.manifests[o] <= s'.reg.epochs[o] {
      if Accepted(s, step) && o == step.task.objectId {
        TaskWithinEpoch(s, step.task);
      }
      EpochMonotone(ttl, s, step, o);
    }
  }

  lemma TaskWithinEpoch(s: State, t: Task)
    requires t in s.tasks && TasksInv(s) && EpochInv(s)
    ensures t.objectId in s.reg.epochs && t.epoch <= s.reg.epochs[t.objectId]
  {
  }

  /** No ship ever carries an epoch the registry has not granted: the manifest never outruns the registry. */
  lemma {:induction false} ManifestWithinEpoch(ttl: nat, steps: seq<Step>)
    ensures WithinEpochs(From(ttl, INIT, steps))
  {
    if steps != [] {
      var front := steps[..|steps| - 1];
      ManifestWithinEpoch(ttl, front);
      FenceAlways(ttl, front);
      EpochsAlways(ttl, front);
      WithinStep(ttl, From(ttl, INIT, front), steps[|steps| - 1]);
    }
  }

  /** The manifest epoch never decreases, from any state. */
  lemma {:induction false} ManifestNeverFalls(ttl: nat, s: State, steps: seq<Step>, o: ObjectId)
    requires o in s.store.manifests
    ensures o in From(ttl, s, steps).store.manifests
    ensures From(ttl, s, steps).store.manifests[o] >= s.store.manifests[o]
  {
    if steps != [] {
      ManifestNeverFalls(ttl, s, steps[..|steps| - 1], o);
      StoreShape(ttl, From(ttl, s, steps[..|steps| - 1]), steps[|steps| - 1]);
    }
  }

  /** Once any later epoch has shipped, an ex-holder's uploads change the store no more, ever, whole or torn. */
  lemma ZombieShipsNothing(ttl: nat, s: State, steps: seq<Step>, zombie: Task, bytes: Bytes)
    requires Fenced(s.store, zombie.objectId, zombie.epoch)
    ensures From(ttl, s, steps + [Ship(zombie, bytes)]).store == From(ttl, s, steps).store
    ensures From(ttl, s, steps + [Tear(zombie, bytes)]).store == From(ttl, s, steps).store
  {
    ManifestNeverFalls(ttl, s, steps, zombie.objectId);
    assert (steps + [Ship(zombie, bytes)])[..|steps|] == steps;
    assert (steps + [Tear(zombie, bytes)])[..|steps|] == steps;
  }

  /**
   A spawn that acquires the lease on a worker with no local file starts from nothing if nothing
   ever shipped whole, and else from the last snapshot put, under an epoch no ship exceeds.
   */
  lemma RestoreYieldsHighestShip(ttl: nat, steps: seq<Step>, w: Worker, o: ObjectId)
    requires var s := From(ttl, INIT, steps);
             w in s.identity && (w, o) !in s.files && Acquires(ttl, s, o, s.identity[w])
    ensures var s := From(ttl, INIT, steps);
            var s' := From(ttl, INIT, steps + [Spawn(w, o)]);
            if LastShip(s.ships, o).None? then s'.files[(w, o)] == BLANK
            else
              && LastShip(s.puts, o).Some?
              && s'.files[(w, o)] == LastShip(s.puts, o).value.bytes
              && (forall i | 0 <= i < |s.ships| && s.ships[i].objectId == o ::
                    s.ships[i].epoch <= LastShip(s.puts, o).value.epoch)
  {
    StoreIsLastShip(ttl, steps, o);
    assert (steps + [Spawn(w, o)])[..|steps|] == steps;
  }

  lemma {:induction false} LastShipSome(ships: seq<Shipment>, o: ObjectId)
    ensures LastShip(ships, o).None? <==> forall i | 0 <= i < |ships| :: ships[i].objectId != o
    ensures LastShip(ships, o).Some? ==> LastShip(ships, o).value in ships && LastShip(ships, o).value.objectId == o
  {
    if ships != [] {
      LastShipSome(ships[..|ships| - 1], o);
    }
  }
}

/**
 A ship taken apart into the requests it really makes for one object: read the manifest,
 put the snapshot, put the manifest. Uploads interleave. The fence then holds only as far
 as nothing newer lands between an upload's check and its puts.
 */
module ShipRace {
  type UploadId = nat

  datatype Stage = Checked | SnapshotPut

  datatype Blobs = Blobs(
    snapshotBy: UploadId,
    manifestBy: UploadId,
    epoch: nat,                       // the manifest's
    open: map<UploadId, Stage>,       // uploads between their check and their last put
    overtaken: set<UploadId>,         // open uploads a newer manifest has landed past
    crossed: set<UploadId>,           // uploads another snapshot has landed on, between their two puts
    overlapped: bool)                 // some put happened with another upload open

  datatype Request = Check(u: UploadId) | PutSnapshot(u: UploadId) | PutManifest(u: UploadId)

  /** Upload 0, under epoch 0, stands for the blobs as first found. */
  const START := Blobs(0, 0, 0, map[], {}, {}, false)

  function Execute(epochs: UploadId -> nat, b: Blobs, r: Request): Blobs {
    match r
    case Check(u) =>
      if u in b.open || b.epoch > epochs(u) then b
      else b.(open := b.open[u := Checked], overtaken := b.overtaken - {u})
    case PutSnapshot(u) =>
      if u !in b.open || b.open[u] != Checked then b
      else
        b.(snapshotBy := u, open := b.open[u := SnapshotPut],
        crossed := b.crossed + (set v | v in b.open && b.open[v] == SnapshotPut) - {u},
        overlapped := b.overlapped || b.open.Keys != {u})
    case PutManifest(u) =>
      if u !in b.open || b.open[u] != SnapshotPut then b
      else
        b.(manifestBy := u, epoch := epochs(u), open := b.open - {u},
        overtaken := b.overtaken + (set v | v in b.open && epochs(v) < epochs(u)),
        overlapped := b.overlapped || b.open.Keys != {u})
  }

  function ExecuteAll(epochs: UploadId -> nat, rs: seq<Request>): Blobs {
    if rs == [] then START else Execute(epochs, ExecuteAll(epochs, rs[..|rs| - 1]), rs[|rs| - 1])
  }

  ghost predicate RaceInv(epochs: UploadId -> nat, b: Blobs) {
    && (forall u | u in b.open && u !in b.overtaken :: b.epoch <= epochs(u))
    && (!b.overlapped ==>
          if exists u :: u in b.open && b.open[u] == SnapshotPut then
            exists u :: u in b.open && b.open[u] == SnapshotPut && b.snapshotBy == u &&
                        forall v | v in b.open && b.open[v] == SnapshotPut :: v == u
          else b.snapshotBy == b.manifestBy)
  }

  lemma RaceStep(epochs: UploadId -> nat, b: Blobs, r: Request)
    requires RaceInv(epochs, b)
    ensures RaceInv(epochs, Execute(epochs, b, r))
  {
    var b' := Execute(epochs, b, r);
    if r.PutSnapshot? && b' != b && !b'.overlapped {
      assert r.u in b'.open && b'.open[r.u] == SnapshotPut;
    } else if r.Check? && b' != b && !b'.overlapped {
      assert forall v | v in b'.open && b'.open[v] == SnapshotPut :: v in b.open && b.open[v] == SnapshotPut;
      if exists u :: u in b.open && b.open[u] == SnapshotPut {
        var u :| u in b.open && b.open[u] == SnapshotPut && b.snapshotBy == u &&
          forall v | v in b.open && b.open[v] == SnapshotPut :: v == u;
        assert u in b'.open && b'.open[u] == SnapshotPut;
      }
    }
  }

  lemma {:induction false} RaceAlways(epochs: UploadId -> nat, rs: seq<Request>)
    ensures RaceInv(epochs, ExecuteAll(epochs, rs))
  {
    if rs != [] {
      RaceAlways(epochs, rs[..|rs| - 1]);
      RaceStep(epochs, ExecuteAll(epochs, rs[..|rs| - 1]), rs[|rs| - 1]);
    }
  }

  lemma ExecuteStep(epochs: UploadId -> nat, rs: seq<Request>, r: Request)
    ensures ExecuteAll(epochs, rs + [r]) == Execute(epochs, ExecuteAll(epochs, rs), r)
  {
  }

  /** The request is a manifest put that goes through. */
  predicate Lands(b: Blobs, r: Request) {
    r.PutManifest? && r.u in b.open && b.open[r.u] == SnapshotPut
  }

  lemma ManifestFalls(epochs: UploadId -> nat, b: Blobs, r: Request)
    requires forall u | u in b.open && u !in b.overtaken :: b.epoch <= epochs(u)
    requires Execute(epochs, b, r).epoch < b.epoch
    ensures Lands(b, r) && r.u in b.overtaken
  {
  }

  /** Over every interleaving, a manifest put lowers the stored epoch only if a newer manifest landed
      after its own check. */
  lemma OnlyOvertakenUploadsLowerTheManifest(epochs: UploadId -> nat, rs: seq<Request>, r: Request)
    requires ExecuteAll(epochs, rs + [r]).epoch < ExecuteAll(epochs, rs).epoch
    ensures r.PutManifest? && r.u in ExecuteAll(epochs, rs).overtaken
  {
    RaceAlways(epochs, rs);
    ExecuteStep(epochs, rs, r);
    ManifestFalls(epochs, ExecuteAll(epochs, rs), r);
  }

  // ---- When the stored epoch never falls --------------------------------------------------

  ghost predicate FallsAt(epochs: UploadId -> nat, rs: seq<Request>, k: nat)
    requires k < |rs|
  {
    Execute(epochs, ExecuteAll(epochs, rs[..k]), rs[k]).epoch < ExecuteAll(epochs, rs[..k]).epoch
  }

  /** An upload that was overtaken puts its manifest. */
  ghost predicate LandsLate(epochs: UploadId -> nat, rs: seq<Request>, k: nat)
    requires k < |rs|
  {
    var b := ExecuteAll(epochs, rs[..k]); Lands(b, rs[k]) && rs[k].u in b.overtaken
  }

  /** As long as nothing has lowered the epoch, it lies above every overtaken upload's own. */
  ghost predicate AboveOvertaken(epochs: UploadId -> nat, b: Blobs) {
    forall u | u in b.overtaken :: epochs(u) < b.epoch
  }

  lemma AboveStep(epochs: UploadId -> nat, b: Blobs, r: Request)
    requires AboveOvertaken(epochs, b) && Execute(epochs, b, r).epoch >= b.epoch
    ensures AboveOvertaken(epochs, Execute(epochs, b, r))
  {
  }

  lemma {:induction false} UnfallenIsAbove(epochs: UploadId -> nat, rs: seq<Request>)
    requires forall k: nat | k < |rs| :: !FallsAt(epochs, rs, k)
    ensures AboveOvertaken(epochs, ExecuteAll(epochs, rs))
  {
    if rs != [] {
      var front := rs[..|rs| - 1];
      forall k: nat | k < |front| ensures !FallsAt(epochs, front, k) {
        assert !FallsAt(epochs, rs, k);
        assert front[..k] == rs[..k];
      }
      UnfallenIsAbove(epochs, front);
      assert !FallsAt(epochs, rs, |front|);
      AboveStep(epochs, ExecuteAll(epochs, front), rs[|rs| - 1]);
    }
  }

  /**
   Over every interleaving: the stored epoch never falls if and only if no upload puts its
   manifest after a newer one has landed since its check.
   */
  lemma ManifestNeverFallsExactly(epochs: UploadId -> nat, rs: seq<Request>)
    ensures (forall k: nat | k < |rs| :: !FallsAt(epochs, rs, k)) <==>
            (forall k: nat | k < |rs| :: !LandsLate(epochs, rs, k))
  {
    if k: nat :| k < |rs| && FallsAt(epochs, rs, k) {
      RaceAlways(epochs, rs[..k]);
      ManifestFalls(epochs, ExecuteAll(epochs, rs[..k]), rs[k]);
      assert LandsLate(epochs, rs, k);
    } else {
      forall k: nat | k < |rs| ensures !LandsLate(epochs, rs, k) {
        forall i: nat | i < k ensures !FallsAt(epochs, rs[..k], i) {
          assert !FallsAt(epochs, rs, i);
          assert rs[..k][..i] == rs[..i];
        }
        UnfallenIsAbove(epochs, rs[..k]);
        assert !FallsAt(epochs, rs, k);
      }
    }
  }

  // ---- When snapshot and manifest match ----------------------------------------------------

  /** As long as no put has fallen inside another upload, snapshot and manifest at rest come from one ship. */
  lemma UnoverlappedShipsMatch(epochs: UploadId -> nat, rs: seq<Request>)
    requires var b := ExecuteAll(epochs, rs); !b.overlapped && b.open == map[]
    ensures ExecuteAll(epochs, rs).snapshotBy == ExecuteAll(epochs, rs).manifestBy
  {
    RaceAlways(epochs, rs);
  }

  predicate Between(b: Blobs, u: UploadId) {
    u in b.open && b.open[u] == SnapshotPut
  }

  /** The request is a snapshot put that goes through. */
  predicate Puts(b: Blobs, r: Request) {
    r.PutSnapshot? && r.u in b.open && b.open[r.u] == Checked
  }

  /**
   Read off the last put that went through: a manifest put of an upload on whose snapshot another
   had landed since, or a snapshot put that has not been followed by its manifest.
   */
  predicate Unmatched(epochs: UploadId -> nat, rs: seq<Request>) {
    if rs == [] then false
    else
      var b, r := ExecuteAll(epochs, rs[..|rs| - 1]), rs[|rs| - 1];
      if Lands(b, r) then r.u in b.crossed
      else if Puts(b, r) then r.u != b.manifestBy
      else Unmatched(epochs, rs[..|rs| - 1])
  }

  /** An upload between its puts owns the snapshot unless it was crossed. */
  ghost predicate CrossInv(b: Blobs) {
    forall u | Between(b, u) :: u in b.crossed <==> b.snapshotBy != u
  }

  lemma CrossStep(epochs: UploadId -> nat, b: Blobs, r: Request)
    requires CrossInv(b)
    ensures CrossInv(Execute(epochs, b, r))
  {
    var b' := Execute(epochs, b, r);
    forall u | Between(b', u) ensures u in b'.crossed <==> b'.snapshotBy != u {
      assert Between(b, u) || r == PutSnapshot(u);
    }
  }

  /**
   Over every interleaving, at every instant, uploads that die between their puts included: the
   stored snapshot is the manifest's own if and only if the last put to go through was not
   unmatched: a manifest whose snapshot another had overwritten, or a snapshot still without
   its manifest.
   */
  lemma {:induction false} ShipsMatchExactly(epochs: UploadId -> nat, rs: seq<Request>)
    ensures CrossInv(ExecuteAll(epochs, rs))
    ensures var b := ExecuteAll(epochs, rs); b.snapshotBy == b.manifestBy <==> !Unmatched(epochs, rs)
  {
    if rs != [] {
      var front := rs[..|rs| - 1];
      var b, r := ExecuteAll(epochs, front), rs[|rs| - 1];
      ShipsMatchExactly(epochs, front);
      CrossStep(epochs, b, r);
      if Lands(b, r) {
        assert Between(b, r.u);
      }
    }
  }

  // ---- An upload nobody disturbs ------------------------------------------------------------

  /** Left alone, an upload stores its own snapshot and manifest if and only if nothing newer is
      stored; and is refused without a trace otherwise. */
  lemma UndisturbedShip(epochs: UploadId -> nat, b: Blobs, u: UploadId)
    requires u !in b.open
    ensures var b' := Execute(epochs, Execute(epochs, Execute(epochs, b, Check(u)), PutSnapshot(u)), PutManifest(u));
            if b.epoch <= epochs(u) then b'.snapshotBy == u && b'.manifestBy == u && b'.epoch == epochs(u)
            else b' == b
  {
  }

  // ---- The inputs -----------------------------------------------------------------------------

  /** An ex-holder that checked in time and put late overwrites its successor: epoch 2 shipped, epoch 1 stored. */
  lemma LateZombieOverwrites(epochs: UploadId -> nat)
    requires epochs(1) == 1 && epochs(2) == 2
    ensures var b := ExecuteAll(epochs, [] + [Check(1)] + [Check(2)] + [PutSnapshot(2)] + [PutManifest(2)]
                                        + [PutSnapshot(1)] + [PutManifest(1)]);
            b.epoch == 1 && b.snapshotBy == 1 && b.open == map[]
  {
    var r0 := [] + [Check(1)];
    var r1 := r0 + [Check(2)];
    var r2 := r1 + [PutSnapshot(2)];
    var r3 := r2 + [PutManifest(2)];
    var r4 := r3 + [PutSnapshot(1)];
    ExecuteStep(epochs, [], Check(1));
    assert ExecuteAll(epochs, r0) == Blobs(0, 0, 0, map[1 := Checked], {}, {}, false);
    ExecuteStep(epochs, r0, Check(2));
    assert ExecuteAll(epochs, r1) == Blobs(0, 0, 0, map[1 := Checked, 2 := Checked], {}, {}, false);
    ExecuteStep(epochs, r1, PutSnapshot(2));
    assert ExecuteAll(epochs, r2).open == map[1 := Checked, 2 := SnapshotPut] && ExecuteAll(epochs, r2).epoch == 0;
    ExecuteStep(epochs, r2, PutManifest(2));
    assert ExecuteAll(epochs, r3).open == map[1 := Checked] && ExecuteAll(epochs, r3).epoch == 2;
    ExecuteStep(epochs, r3, PutSnapshot(1));
    assert ExecuteAll(epochs, r4).open == map[1 := SnapshotPut] && ExecuteAll(epochs, r4).snapshotBy == 1;
    ExecuteStep(epochs, r4, PutManifest(1));
  }

  /** Two uploads whose puts interleave leave one's snapshot under the other's manifest. */
  lemma InterleavedShipsMismatch(epochs: UploadId -> nat)
    requires epochs(1) == 1 && epochs(2) == 2
    ensures var b := ExecuteAll(epochs, [] + [Check(1)] + [Check(2)] + [PutSnapshot(1)] + [PutSnapshot(2)]
                                        + [PutManifest(2)] + [PutManifest(1)]);
            b.snapshotBy == 2 && b.manifestBy == 1 && b.epoch == 1 && b.open == map[]
  {
    var r0 := [] + [Check(1)];
    var r1 := r0 + [Check(2)];
    var r2 := r1 + [PutSnapshot(1)];
    var r3 := r2 + [PutSnapshot(2)];
    var r4 := r3 + [PutManifest(2)];
    ExecuteStep(epochs, [], Check(1));
    assert ExecuteAll(epochs, r0) == Blobs(0, 0, 0, map[1 := Checked], {}, {}, false);
    ExecuteStep(epochs, r0, Check(2));
    assert ExecuteAll(epochs, r1).open == map[1 := Checked, 2 := Checked];
    ExecuteStep(epochs, r1, PutSnapshot(1));
    assert ExecuteAll(epochs, r2).open == map[1 := SnapshotPut, 2 := Checked];
    ExecuteStep(epochs, r2, PutSnapshot(2));
    assert ExecuteAll(epochs, r3).open == map[1 := SnapshotPut, 2 := SnapshotPut];
    assert ExecuteAll(epochs, r3).snapshotBy == 2;
    ExecuteStep(epochs, r3, PutManifest(2));
    assert ExecuteAll(epochs, r4).open == map[1 := SnapshotPut] && ExecuteAll(epochs, r4).snapshotBy == 2;
    ExecuteStep(epochs, r4, PutManifest(1));
  }

  /** An upload that dies between its puts leaves its snapshot under the manifest found there. */
  lemma HalfShipMismatches(epochs: UploadId -> nat)
    ensures var b := ExecuteAll(epochs, [] + [Check(1)] + [PutSnapshot(1)]); b.snapshotBy == 1 && b.manifestBy == 0
  {
    ExecuteStep(epochs, [], Check(1));
    assert ExecuteAll(epochs, [] + [Check(1)]) == Blobs(0, 0, 0, map[1 := Checked], {}, {}, false);
    ExecuteStep(epochs, [] + [Check(1)], PutSnapshot(1));
  }
}

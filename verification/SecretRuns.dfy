/**
 Any number of set and delete calls over one table, interleaved between their reads and
 their writes, with master-key rotations re-wrapping rows underneath them. `masters` says
 which key each label ever names; every keyring in a run is a part of it.
 */
module SecretRuns {
  import opened Prelude
  import opened Envelope
  import opened SecretTable

  datatype Pc =
    | SetReading(name: Name, value: string, tries: nat, base: nat)
    | SetInserting(name: Name, value: string, tries: nat, base: nat, version: nat)
    | SetDone(name: Name, value: string, version: nat)
    | SetAborted(name: Name, base: nat, seen: nat)
    | DeleteReading(name: Name)
    | DeleteMarking(name: Name, version: nat)
    | DeleteDone(name: Name, version: nat)
    | DeleteMissing

  datatype State = State(table: Table, calls: map<CallId, Pc>)

  datatype Step =
    | StartSet(id: CallId, name: Name, value: string)
    | StartDelete(id: CallId, name: Name)
    | Read(id: CallId)
    | Insert(id: CallId, ring: Keyring, dek: Key, nonce: Nonce, wrapNonce: Nonce)
    | Mark(id: CallId)
    | Rotate(name: Name, version: nat, ring: Keyring, wrapNonce: Nonce)

  const INIT := State(map[], map[])

  predicate RingOk(masters: map<string, Key>, ring: Keyring) {
    && ring.active in ring.keks
    && forall id | id in ring.keks :: id in masters && masters[id] == ring.keks[id]
  }

  ghost function Apply(masters: map<string, Key>, s: State, step: Step): State {
    match step
    case StartSet(id, name, value) =>
      if id in s.calls then s
      else s.(calls := s.calls[id := SetReading(name, value, 0, HeadVersion(s.table, name))])
    case StartDelete(id, name) =>
      if id in s.calls then s else s.(calls := s.calls[id := DeleteReading(name)])
    case Read(id) => if id !in s.calls then s else s.(calls := s.calls[id := AfterRead(s.table, s.calls[id])])
    case Insert(id, ring, dek, nonce, wrapNonce) =>
      if id !in s.calls || !s.calls[id].SetInserting? || !RingOk(masters, ring) then s
      else
        var pc := s.calls[id];
        if pc.version in RowsOf(s.table, pc.name) then
          s.(calls := s.calls[id := AfterConflict(s.table, pc)])
        else
          State(Inserted(s.table, pc.name, pc.version, Row(Seal(ring, pc.value, dek, nonce, wrapNonce), id, None)),
                s.calls[id := SetDone(pc.name, pc.value, pc.version)])
    case Mark(id) =>
      if id !in s.calls || !s.calls[id].DeleteMarking? then s
      else
        var pc := s.calls[id];
        var rows := RowsOf(s.table, pc.name);
        if pc.version !in rows || rows[pc.version].tombstone.Some? then s.(calls := s.calls[id := DeleteMissing])
        else
          State(Inserted(s.table, pc.name, pc.version, rows[pc.version].(tombstone := Some(id))),
                s.calls[id := DeleteDone(pc.name, pc.version)])
    case Rotate(name, version, ring, wrapNonce) =>
      if !RingOk(masters, ring) || version !in RowsOf(s.table, name) then s
      else
        var row := RowsOf(s.table, name)[version];
        match Rewrap(ring, row.sealed, wrapNonce)
        case Failure(_) => s
        case Success(sealed) => s.(table := Inserted(s.table, name, version, row.(sealed := sealed)))
  }

  ghost function AfterRead(t: Table, pc: Pc): Pc {
    match pc
    case SetReading(name, value, tries, base) => SetInserting(name, value, tries, base, HeadVersion(t, name) + 1)
    case DeleteReading(name) =>
      var rows := RowsOf(t, name);
      if rows == map[] || rows[HeadVersion(t, name)].tombstone.Some? then DeleteMissing
      else DeleteMarking(name, HeadVersion(t, name))
    case _ => pc
  }

  /** A unique violation: try again, or give up after the third. */
  ghost function AfterConflict(t: Table, pc: Pc): Pc
    requires pc.SetInserting?
  {
    if pc.tries + 1 < ATTEMPTS then SetReading(pc.name, pc.value, pc.tries + 1, pc.base)
    else SetAborted(pc.name, pc.base, HeadVersion(t, pc.name))
  }

  ghost function After(masters: map<string, Key>, steps: seq<Step>): State {
    if steps == [] then INIT
    else Apply(masters, After(masters, steps[..|steps| - 1]), steps[|steps| - 1])
  }

  // ---- Invariants ---------------------------------------------------------------------

  ghost predicate RowOk(masters: map<string, Key>, calls: map<CallId, Pc>, name: Name, v: nat, row: Row) {
    && row.sealed.kekId in masters
    && Genuine(row.sealed, masters[row.sealed.kekId], row.sealed.ciphertext.message)
    && row.setter in calls && calls[row.setter] == SetDone(name, row.sealed.ciphertext.message, v)
    && (row.tombstone.Some? ==> row.tombstone.value in calls && calls[row.tombstone.value] == DeleteDone(name, v))
  }

  ghost predicate CallOk(t: Table, id: CallId, pc: Pc) {
    match pc
    case SetReading(name, _, tries, base) => tries < ATTEMPTS && base + tries <= HeadVersion(t, name)
    case SetInserting(name, _, tries, base, version) =>
      tries < ATTEMPTS && 1 <= version && base + tries + 1 <= version <= HeadVersion(t, name) + 1
    case SetDone(name, value, version) =>
      version in RowsOf(t, name) && RowsOf(t, name)[version].setter == id
    case SetAborted(name, base, seen) => base + ATTEMPTS <= seen <= HeadVersion(t, name)
    case DeleteMarking(name, version) => version in RowsOf(t, name)
    case DeleteDone(name, version) =>
      version in RowsOf(t, name) && RowsOf(t, name)[version].tombstone == Some(id)
    case _ => true
  }

  ghost predicate VersionsOk(t: Table) {
    forall name :: Contiguous(t, name)
  }

  ghost predicate RowsOk(masters: map<string, Key>, t: Table, calls: map<CallId, Pc>) {
    forall name, v: nat | v in RowsOf(t, name) :: RowOk(masters, calls, name, v, RowsOf(t, name)[v])
  }

  ghost predicate CallsOk(t: Table, calls: map<CallId, Pc>) {
    forall id | id in calls :: CallOk(t, id, calls[id])
  }

  ghost predicate Inv(masters: map<string, Key>, s: State) {
    VersionsOk(s.table) && RowsOk(masters, s.table, s.calls) && CallsOk(s.table, s.calls)
  }

  /** Rows stay, keep their setter, and keep a tombstone once they have one; heads only rise. */
  ghost predicate Grows(t: Table, t': Table) {
    && (forall name :: HeadVersion(t, name) <= HeadVersion(t', name))
    && (forall name, v: nat | v in RowsOf(t, name) ::
          && v in RowsOf(t', name) && RowsOf(t', name)[v].setter == RowsOf(t, name)[v].setter
          && (RowsOf(t, name)[v].tombstone.Some? ==> RowsOf(t', name)[v].tombstone == RowsOf(t, name)[v].tombstone))
  }

  lemma CallSurvives(t: Table, t': Table, id: CallId, pc: Pc)
    requires Grows(t, t') && CallOk(t, id, pc)
    ensures CallOk(t', id, pc)
  {
  }

  /** A step that leaves the table alone moves one call that owns nothing yet. */
  lemma CallMoves(masters: map<string, Key>, s: State, id: CallId, pc: Pc)
    requires Inv(masters, s) && CallOk(s.table, id, pc)
    requires id in s.calls ==> !s.calls[id].SetDone? && !s.calls[id].DeleteDone?
    ensures Inv(masters, s.(calls := s.calls[id := pc]))
  {
  }

  /** The rows a put may write: the next version, or a present one with its owners kept. */
  ghost predicate Puttable(t: Table, name: Name, version: nat, row: Row) {
    if version in RowsOf(t, name) then
      var present := RowsOf(t, name)[version];
      row.setter == present.setter && (present.tombstone.Some? ==> row.tombstone == present.tombstone)
    else
      version == HeadVersion(t, name) + 1
  }

  lemma PutOne(t: Table, name: Name, version: nat, row: Row, other: Name)
    requires Contiguous(t, name) && Contiguous(t, other) && Puttable(t, name, version, row)
    ensures var t' := Inserted(t, name, version, row);
            && Contiguous(t', other) && HeadVersion(t, other) <= HeadVersion(t', other)
            && RowsOf(t', other) == if other == name then RowsOf(t, name)[version := row] else RowsOf(t, other)
  {
    if version in RowsOf(t, name) {
      ReplaceKeepsHeads(t, name, version, row);
    } else {
      InsertMovesHead(t, name, row);
    }
  }

  lemma PutGrows(t: Table, name: Name, version: nat, row: Row)
    requires VersionsOk(t) && Puttable(t, name, version, row)
    ensures VersionsOk(Inserted(t, name, version, row)) && Grows(t, Inserted(t, name, version, row))
  {
    var t' := Inserted(t, name, version, row);
    forall other ensures Contiguous(t', other) && HeadVersion(t, other) <= HeadVersion(t', other)
      ensures RowsOf(t', other) == if other == name then RowsOf(t, name)[version := row] else RowsOf(t, other)
    {
      assert Contiguous(t, name) && Contiguous(t, other);
      PutOne(t, name, version, row, other);
    }
  }

  lemma PutRowsOk(masters: map<string, Key>, s: State, name: Name, version: nat, row: Row, id: CallId, pc: Pc)
    requires RowsOk(masters, s.table, s.calls)
    requires id in s.calls && (s.calls[id].SetDone? || s.calls[id].DeleteDone? ==> pc == s.calls[id])
    requires RowOk(masters, s.calls[id := pc], name, version, row)
    ensures RowsOk(masters, Inserted(s.table, name, version, row), s.calls[id := pc])
  {
    var t', calls := Inserted(s.table, name, version, row), s.calls[id := pc];
    forall other, v: nat | v in RowsOf(t', other) ensures RowOk(masters, calls, other, v, RowsOf(t', other)[v]) {
      if other != name || v != version {
        assert v in RowsOf(s.table, other) && RowsOf(t', other)[v] == RowsOf(s.table, other)[v];
        assert RowOk(masters, s.calls, other, v, RowsOf(s.table, other)[v]);
      }
    }
  }

  lemma PutCallsOk(t: Table, t': Table, calls: map<CallId, Pc>, id: CallId, pc: Pc)
    requires Grows(t, t') && CallsOk(t, calls) && CallOk(t', id, pc)
    ensures CallsOk(t', calls[id := pc])
  {
    forall other | other in calls && other != id ensures CallOk(t', other, calls[other]) {
      CallSurvives(t, t', other, calls[other]);
    }
  }

  /** Putting one row by one call keeps the invariant, if the row and the call vouch for each other. */
  lemma RowMoves(masters: map<string, Key>, s: State, name: Name, version: nat, row: Row, id: CallId, pc: Pc)
    requires Inv(masters, s) && Puttable(s.table, name, version, row)
    requires id in s.calls && (s.calls[id].SetDone? || s.calls[id].DeleteDone? ==> pc == s.calls[id])
    requires RowOk(masters, s.calls[id := pc], name, version, row)
    requires CallOk(Inserted(s.table, name, version, row), id, pc)
    ensures Inv(masters, State(Inserted(s.table, name, version, row), s.calls[id := pc]))
  {
    PutGrows(s.table, name, version, row);
    PutRowsOk(masters, s, name, version, row, id, pc);
    PutCallsOk(s.table, Inserted(s.table, name, version, row), s.calls, id, pc);
  }

  lemma InsertStep(masters: map<string, Key>, s: State, step: Step)
    requires Inv(masters, s) && step.Insert?
    ensures Inv(masters, Apply(masters, s, step))
  {
    var id := step.id;
    if id in s.calls && s.calls[id].SetInserting? && RingOk(masters, step.ring) {
      var pc := s.calls[id];
      assert CallOk(s.table, id, pc);
      assert Contiguous(s.table, pc.name);
      if pc.version in RowsOf(s.table, pc.name) {
        CallMoves(masters, s, id, AfterConflict(s.table, pc));
      } else {
        var row := Row(Seal(step.ring, pc.value, step.dek, step.nonce, step.wrapNonce), id, None);
        RowMoves(masters, s, pc.name, pc.version, row, id, SetDone(pc.name, pc.value, pc.version));
      }
    }
  }

  lemma MarkStep(masters: map<string, Key>, s: State, step: Step)
    requires Inv(masters, s) && step.Mark?
    ensures Inv(masters, Apply(masters, s, step))
  {
    var id := step.id;
    if id in s.calls && s.calls[id].DeleteMarking? {
      var pc := s.calls[id];
      var rows := RowsOf(s.table, pc.name);
      assert CallOk(s.table, id, pc);
      assert RowOk(masters, s.calls, pc.name, pc.version, rows[pc.version]);
      if rows[pc.version].tombstone.Some? {
        CallMoves(masters, s, id, DeleteMissing);
      } else {
        var row := rows[pc.version].(tombstone := Some(id));
        RowMoves(masters, s, pc.name, pc.version, row, id, DeleteDone(pc.name, pc.version));
      }
    }
  }

  lemma RotateStep(masters: map<string, Key>, s: State, step: Step)
    requires Inv(masters, s) && step.Rotate?
    ensures Inv(masters, Apply(masters, s, step))
  {
    if RingOk(masters, step.ring) && step.version in RowsOf(s.table, step.name) {
      var row := RowsOf(s.table, step.name)[step.version];
      assert RowOk(masters, s.calls, step.name, step.version, row);
      RewrapMovesMaster(step.ring, row.sealed, masters[row.sealed.kekId], row.sealed.ciphertext.message,
                        step.wrapNonce);
      var sealed := Rewrap(step.ring, row.sealed, step.wrapNonce);
      if sealed.Success? {
        var row' := row.(sealed := sealed.value);
        var pc := s.calls[row.setter];
        assert s.calls[row.setter := pc] == s.calls;
        assert CallOk(s.table, row.setter, pc);
        RowMoves(masters, s, step.name, step.version, row', row.setter, pc);
      }
    }
  }

  lemma InvStep(masters: map<string, Key>, s: State, step: Step)
    requires Inv(masters, s)
    ensures Inv(masters, Apply(masters, s, step))
  {
    match step
    case StartSet(id, name, value) =>
      if id !in s.calls {
        CallMoves(masters, s, id, SetReading(name, value, 0, HeadVersion(s.table, name)));
      }
    case StartDelete(id, name) =>
      if id !in s.calls {
        CallMoves(masters, s, id, DeleteReading(name));
      }
    case Read(id) =>
      if id in s.calls && (s.calls[id].SetReading? || s.calls[id].DeleteReading?) {
        assert CallOk(s.table, id, s.calls[id]);
        CallMoves(masters, s, id, AfterRead(s.table, s.calls[id]));
      } else if id in s.calls {
        assert s.calls[id := s.calls[id]] == s.calls;
      }
    case Insert(_, _, _, _, _) => InsertStep(masters, s, step);
    case Mark(_) => MarkStep(masters, s, step);
    case Rotate(_, _, _, _) => RotateStep(masters, s, step);
  }

  lemma {:induction false} InvAlways(masters: map<string, Key>, steps: seq<Step>)
    ensures Inv(masters, After(masters, steps))
  {
    if steps != [] {
      InvAlways(masters, steps[..|steps| - 1]);
      InvStep(masters, After(masters, steps[..|steps| - 1]), steps[|steps| - 1]);
    }
  }

  // ---- Results --------------------------------------------------------------------------

  /** However calls interleave, a name's versions are exactly 1..n, and each belongs to the one set that returned it. */
  lemma VersionsBelongToTheirSets(masters: map<string, Key>, steps: seq<Step>, name: Name)
    ensures var s := After(masters, steps);
            && Contiguous(s.table, name)
            && (forall v: nat | v in RowsOf(s.table, name) ::
                  var setter := RowsOf(s.table, name)[v].setter;
                  setter in s.calls && s.calls[setter].SetDone? &&
                  s.calls[setter].name == name && s.calls[setter].version == v)
            && (forall a, b | a in s.calls && b in s.calls && s.calls[a].SetDone? && s.calls[b].SetDone? &&
                              s.calls[a].name == s.calls[b].name && s.calls[a].version == s.calls[b].version :: a == b)
  {
    InvAlways(masters, steps);
    var s := After(masters, steps);
    forall v: nat | v in RowsOf(s.table, name)
      ensures var setter := RowsOf(s.table, name)[v].setter;
              setter in s.calls && s.calls[setter].SetDone? &&
              s.calls[setter].name == name && s.calls[setter].version == v
    {
      assert RowOk(masters, s.calls, name, v, RowsOf(s.table, name)[v]);
    }
    forall a, b | a in s.calls && b in s.calls && s.calls[a].SetDone? && s.calls[b].SetDone? &&
                  s.calls[a].name == s.calls[b].name && s.calls[a].version == s.calls[b].version
      ensures a == b
    {
      assert CallOk(s.table, a, s.calls[a]) && CallOk(s.table, b, s.calls[b]);
    }
  }

  /** A set that gives up saw at least three versions of its name land since it began, none of them its own. */
  lemma AbortMeansThreeRivals(masters: map<string, Key>, steps: seq<Step>, id: CallId)
    requires id in After(masters, steps).calls && After(masters, steps).calls[id].SetAborted?
    ensures var s := After(masters, steps);
            var pc := s.calls[id];
            && pc.seen >= pc.base + 3 && pc.seen <= HeadVersion(s.table, pc.name)
            && (forall v: nat | pc.base < v <= pc.seen ::
                  v in RowsOf(s.table, pc.name) && RowsOf(s.table, pc.name)[v].setter != id)
  {
    InvAlways(masters, steps);
    var s := After(masters, steps);
    var pc := s.calls[id];
    assert CallOk(s.table, id, pc);
    assert Contiguous(s.table, pc.name);
    forall v: nat | pc.base < v <= pc.seen
      ensures v in RowsOf(s.table, pc.name) && RowsOf(s.table, pc.name)[v].setter != id
    {
      assert RowOk(masters, s.calls, pc.name, v, RowsOf(s.table, pc.name)[v]);
    }
  }

  /**
   Whatever sets, deletes and rotations followed, a pinned version resolves to the value its
   set stored for exactly those keyrings that hold the row's current label.
   */
  lemma PinResolvesToItsValue(masters: map<string, Key>, steps: seq<Step>, id: CallId, ring: Keyring)
    requires id in After(masters, steps).calls && After(masters, steps).calls[id].SetDone?
    requires RingOk(masters, ring)
    ensures var s := After(masters, steps);
            var pc := s.calls[id];
            && pc.version in RowsOf(s.table, pc.name) && pc.version >= 1
            && (Resolve(ring, s.table, pc.name, pc.version) == Success((pc.value, pc.version)) <==>
                  RowsOf(s.table, pc.name)[pc.version].sealed.kekId in ring.keks)
  {
    InvAlways(masters, steps);
    var s := After(masters, steps);
    var pc := s.calls[id];
    assert CallOk(s.table, id, pc);
    assert Contiguous(s.table, pc.name);
    var row := RowsOf(s.table, pc.name)[pc.version];
    assert RowOk(masters, s.calls, pc.name, pc.version, row);
    OpensExactlyForItsMaster(ring, row.sealed, masters[row.sealed.kekId], row.sealed.ciphertext.message);
  }

  /**
   Without a pin, after whatever sets, deletes and rotations: nothing is found exactly when the
   name has no versions or its newest is tombstoned; otherwise the answer is the newest version,
   with the value its own set stored, exactly for keyrings that hold the row's label.
   */
  lemma HeadResolvesToItsValue(masters: map<string, Key>, steps: seq<Step>, name: Name, ring: Keyring)
    requires RingOk(masters, ring)
    ensures var s := After(masters, steps);
            var rows, head := RowsOf(s.table, name), HeadVersion(s.table, name);
            var answer := Resolve(ring, s.table, name, 0);
            && (answer == Failure(NotFound) <==> rows == map[] || rows[head].tombstone.Some?)
            && (rows != map[] && rows[head].tombstone.None? ==>
                  && rows[head].setter in s.calls && s.calls[rows[head].setter].SetDone?
                  && s.calls[rows[head].setter].name == name && s.calls[rows[head].setter].version == head
                  && answer == if rows[head].sealed.kekId in ring.keks
                               then Success((s.calls[rows[head].setter].value, head)) else Failure(DecryptionFailed))
  {
    InvAlways(masters, steps);
    var s := After(masters, steps);
    var rows, head := RowsOf(s.table, name), HeadVersion(s.table, name);
    if rows != map[] {
      assert RowOk(masters, s.calls, name, head, rows[head]);
      OpensExactlyForItsMaster(ring, rows[head].sealed, masters[rows[head].sealed.kekId],
                               rows[head].sealed.ciphertext.message);
    }
  }

  /** The set that finished last on a name, nothing having deleted it, is what the name resolves to. */
  lemma LatestSetIsResolved(masters: map<string, Key>, steps: seq<Step>, id: CallId, ring: Keyring)
    requires RingOk(masters, ring)
    requires var s := After(masters, steps);
             && id in s.calls && s.calls[id].SetDone? && s.calls[id].version == HeadVersion(s.table, s.calls[id].name)
    ensures var s := After(masters, steps);
            var pc := s.calls[id];
            && pc.version in RowsOf(s.table, pc.name)
            && var row := RowsOf(s.table, pc.name)[pc.version];
               Resolve(ring, s.table, pc.name, 0) == Success((pc.value, pc.version)) <==>
               row.tombstone.None? && row.sealed.kekId in ring.keks
  {
    var s := After(masters, steps);
    InvAlways(masters, steps);
    assert CallOk(s.table, id, s.calls[id]);
    HeadResolvesToItsValue(masters, steps, s.calls[id].name, ring);
  }

  /** A pin finds nothing exactly when no set was given that version of that name. */
  lemma PinFoundExactly(masters: map<string, Key>, steps: seq<Step>, name: Name, version: nat, ring: Keyring)
    requires version >= 1
    ensures var s := After(masters, steps);
            Resolve(ring, s.table, name, version) == Failure(NotFound) <==>
            forall id | id in s.calls ::
              !(s.calls[id].SetDone? && s.calls[id].name == name && s.calls[id].version == version)
  {
    InvAlways(masters, steps);
    var s := After(masters, steps);
    if version in RowsOf(s.table, name) {
      assert RowOk(masters, s.calls, name, version, RowsOf(s.table, name)[version]);
    } else {
      forall id | id in s.calls
        ensures !(s.calls[id].SetDone? && s.calls[id].name == name && s.calls[id].version == version)
      {
        assert CallOk(s.table, id, s.calls[id]);
      }
    }
  }

  /** With the head's label at hand, `list_secrets` shows exactly the names that resolve without a pin. */
  lemma ListingIsHeadResolution(masters: map<string, Key>, steps: seq<Step>, ring: Keyring,
                                project: string, secret: string)
    requires RingOk(masters, ring)
    requires var t := After(masters, steps).table;
             var name := (project, secret);
             RowsOf(t, name) != map[] ==> RowsOf(t, name)[HeadVersion(t, name)].sealed.kekId in ring.keks
    ensures var t := After(masters, steps).table;
            secret in Listed(t, project) <==> Resolve(ring, t, (project, secret), 0).Success?
  {
    InvAlways(masters, steps);
    var s := After(masters, steps);
    var name := (project, secret);
    if RowsOf(s.table, name) != map[] {
      var row := RowsOf(s.table, name)[HeadVersion(s.table, name)];
      assert RowOk(masters, s.calls, name, HeadVersion(s.table, name), row);
      OpensExactlyForItsMaster(ring, row.sealed, masters[row.sealed.kekId], row.sealed.ciphertext.message);
    }
    ListedExactlyResolvable(ring, s.table, project, secret);
  }

  // ---- Calls nobody disturbs ---------------------------------------------------------------

  /** A set nobody comes between stores the next version, and the name resolves to its value at once. */
  lemma UndisturbedSet(masters: map<string, Key>, s: State, id: CallId, name: Name, value: string,
                       ring: Keyring, dek: Key, nonce: Nonce, wrapNonce: Nonce)
    requires id !in s.calls && Contiguous(s.table, name) && RingOk(masters, ring)
    ensures var s' := Apply(masters, Apply(masters, Apply(masters, s, StartSet(id, name, value)), Read(id)),
                            Insert(id, ring, dek, nonce, wrapNonce));
            var version := HeadVersion(s.table, name) + 1;
            && id in s'.calls && s'.calls[id] == SetDone(name, value, version)
            && HeadVersion(s'.table, name) == version
            && Resolve(ring, s'.table, name, 0) == Success((value, version))
  {
    InsertMovesHead(s.table, name, Row(Seal(ring, value, dek, nonce, wrapNonce), id, None));
    SealIsGenuine(ring, value, dek, nonce, wrapNonce);
  }

  /** A delete nobody comes between tombstones the newest version, and the name is gone at once. */
  lemma UndisturbedDelete(masters: map<string, Key>, s: State, id: CallId, name: Name, ring: Keyring)
    requires id !in s.calls && RowsOf(s.table, name) != map[]
    requires RowsOf(s.table, name)[HeadVersion(s.table, name)].tombstone.None?
    ensures var s' := Apply(masters, Apply(masters, Apply(masters, s, StartDelete(id, name)), Read(id)), Mark(id));
            && id in s'.calls && s'.calls[id] == DeleteDone(name, HeadVersion(s.table, name))
            && Resolve(ring, s'.table, name, 0) == Failure(NotFound) && name.1 !in Listed(s'.table, name.0)
  {
    var head := HeadVersion(s.table, name);
    var row := RowsOf(s.table, name)[head].(tombstone := Some(id));
    ReplaceKeepsHeads(s.table, name, head, row);
    ListedByHead(Inserted(s.table, name, head, row), name);
  }

  /** A conflict is tried again twice; the third one gives up. */
  lemma ThirdConflictAborts(masters: map<string, Key>, s: State, id: CallId, ring: Keyring, dek: Key, nonce: Nonce,
                            wrapNonce: Nonce)
    requires id in s.calls && s.calls[id].SetInserting? && RingOk(masters, ring)
    requires s.calls[id].version in RowsOf(s.table, s.calls[id].name)
    ensures var pc := s.calls[id];
            Apply(masters, s, Insert(id, ring, dek, nonce, wrapNonce))
            == s.(calls := s.calls[id :=
                  if pc.tries < 2 then SetReading(pc.name, pc.value, pc.tries + 1, pc.base)
                  else SetAborted(pc.name, pc.base, HeadVersion(s.table, pc.name))])
  {
  }

  lemma ReachedRow(masters: map<string, Key>, steps: seq<Step>, name: Name, version: nat)
    requires version in RowsOf(After(masters, steps).table, name)
    ensures var s := After(masters, steps);
            version >= 1 && RowOk(masters, s.calls, name, version, RowsOf(s.table, name)[version])
  {
    InvAlways(masters, steps);
    assert Contiguous(After(masters, steps).table, name);
  }

  /** A rotation that holds the row's label moves the row under the active one and nothing else of it. */
  lemma RotationMovesLabel(masters: map<string, Key>, steps: seq<Step>, name: Name, version: nat, ring: Keyring,
                           wrapNonce: Nonce)
    requires RingOk(masters, ring) && version in RowsOf(After(masters, steps).table, name)
    requires RowsOf(After(masters, steps).table, name)[version].sealed.kekId in ring.keks
    ensures var s := After(masters, steps);
            var s' := Apply(masters, s, Rotate(name, version, ring, wrapNonce));
            var row := RowsOf(s.table, name)[version];
            && version in RowsOf(s'.table, name)
            && RowsOf(s'.table, name)[version] == row.(sealed := RowsOf(s'.table, name)[version].sealed)
            && RowsOf(s'.table, name)[version].sealed.kekId == ring.active
            && version >= 1 && Resolve(ring, s'.table, name, version) == Resolve(ring, s.table, name, version)
  {
    var s := After(masters, steps);
    ReachedRow(masters, steps, name, version);
    var row := RowsOf(s.table, name)[version];
    OpensExactlyForItsMaster(ring, row.sealed, masters[row.sealed.kekId], row.sealed.ciphertext.message);
    RewrapMovesMaster(ring, row.sealed, masters[row.sealed.kekId], row.sealed.ciphertext.message, wrapNonce);
  }

  lemma DeleteOwnsTombstone(s: State, id: CallId)
    requires id in s.calls && s.calls[id].DeleteDone? && CallOk(s.table, id, s.calls[id])
    ensures var pc := s.calls[id];
            && pc.version in RowsOf(s.table, pc.name)
            && RowsOf(s.table, pc.name)[pc.version].tombstone == Some(id)
            && (pc.name.1 in Listed(s.table, pc.name.0) ==> HeadVersion(s.table, pc.name) > pc.version)
  {
  }

  /**
   Every tombstone belongs to exactly one successful delete and every successful delete owns
   exactly one; it hides the name unless a version newer than the one it read has landed.
   */
  lemma TombstonesBelongToTheirDeletes(masters: map<string, Key>, steps: seq<Step>)
    ensures var s := After(masters, steps);
            && (forall name, v: nat | v in RowsOf(s.table, name) && RowsOf(s.table, name)[v].tombstone.Some? ::
                  var id := RowsOf(s.table, name)[v].tombstone.value;
                  id in s.calls && s.calls[id] == DeleteDone(name, v))
            && (forall id | id in s.calls && s.calls[id].DeleteDone? ::
                  var pc := s.calls[id];
                  && pc.version in RowsOf(s.table, pc.name)
                  && RowsOf(s.table, pc.name)[pc.version].tombstone == Some(id)
                  && (pc.name.1 in Listed(s.table, pc.name.0) ==> HeadVersion(s.table, pc.name) > pc.version))
  {
    InvAlways(masters, steps);
    var s := After(masters, steps);
    forall name, v: nat | v in RowsOf(s.table, name) && RowsOf(s.table, name)[v].tombstone.Some?
      ensures var id := RowsOf(s.table, name)[v].tombstone.value;
              id in s.calls && s.calls[id] == DeleteDone(name, v)
    {
      assert RowOk(masters, s.calls, name, v, RowsOf(s.table, name)[v]);
    }
    forall id | id in s.calls && s.calls[id].DeleteDone?
      ensures var pc := s.calls[id];
              && pc.version in RowsOf(s.table, pc.name)
              && RowsOf(s.table, pc.name)[pc.version].tombstone == Some(id)
              && (pc.name.1 in Listed(s.table, pc.name.0) ==> HeadVersion(s.table, pc.name) > pc.version)
    {
      DeleteOwnsTombstone(s, id);
    }
  }
}

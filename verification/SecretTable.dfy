/**
 The `secret_versions` table and the service over it. A name is a project and a secret
 name; a row is keyed by name and version, inserted once, and afterwards only re-wrapped
 or tombstoned. `setter` and `tombstone` name the calls that inserted and deleted it.
 */
module SecretTable {
  import opened Prelude
  import opened Envelope

  type Name = (string, string)
  type CallId = nat

  datatype Row = Row(sealed: Sealed, setter: CallId, tombstone: Option<CallId>)

  type Rows = map<nat, Row>
  type Table = map<Name, Rows>

  datatype SecretError = Aborted | NotFound | DecryptionFailed

  const ATTEMPTS: nat := 3

  function RowsOf(t: Table, name: Name): Rows {
    if name in t then t[name] else map[]
  }

  ghost function Top(versions: set<nat>): (top: nat)
    ensures versions == {} ==> top == 0
    ensures versions != {} ==> top in versions
    ensures forall v | v in versions :: v <= top
  {
    if versions == {} then 0
    else
      var v :| v in versions;
      var rest := Top(versions - {v});
      assert forall u | u in versions :: u == v || u in versions - {v};
      if v > rest then v else rest
  }

  /** The newest version of a name, 0 when it has none. */
  ghost function HeadVersion(t: Table, name: Name): (head: nat)
    ensures forall v | v in RowsOf(t, name) :: v <= head
    ensures RowsOf(t, name) != map[] ==> head in RowsOf(t, name)
    ensures RowsOf(t, name) == map[] ==> head == 0
  {
    Top(RowsOf(t, name).Keys)
  }

  /** A name's versions are exactly 1 up to its head. */
  ghost predicate Contiguous(t: Table, name: Name) {
    forall v: nat :: v in RowsOf(t, name) <==> 1 <= v <= HeadVersion(t, name)
  }

  function Inserted(t: Table, name: Name, version: nat, row: Row): Table {
    t[name := RowsOf(t, name)[version := row]]
  }

  /** A pin finds its row whatever became of it; the head is refused when tombstoned. */
  ghost function Resolve(ring: Keyring, t: Table, name: Name, version: nat): Result<(string, nat), SecretError> {
    var v := if version == 0 then HeadVersion(t, name) else version;
    if v !in RowsOf(t, name) || (version == 0 && RowsOf(t, name)[v].tombstone.Some?) then Failure(NotFound)
    else
      match Open(ring, RowsOf(t, name)[v].sealed)
      case Success(value) => Success((value, v))
      case Failure(_) => Failure(DecryptionFailed)
  }

  /** The names a project's listing shows: those whose head carries no tombstone. */
  ghost function Listed(t: Table, project: string): set<string> {
    set name | name in t && name.0 == project && t[name] != map[] &&
               t[name][HeadVersion(t, name)].tombstone.None? :: name.1
  }

  lemma TopIs(versions: set<nat>, top: nat)
    requires top in versions && forall v | v in versions :: v <= top
    ensures Top(versions) == top
  {
  }

  /** A row put under the next version becomes the head; other names do not notice. */
  lemma InsertMovesHead(t: Table, name: Name, row: Row)
    requires Contiguous(t, name)
    ensures var t' := Inserted(t, name, HeadVersion(t, name) + 1, row);
            && HeadVersion(t', name) == HeadVersion(t, name) + 1 && Contiguous(t', name)
            && (forall other | other != name :: RowsOf(t', other) == RowsOf(t, other))
            && (forall other | other != name && Contiguous(t, other) :: Contiguous(t', other))
  {
    var next := HeadVersion(t, name) + 1;
    var t' := Inserted(t, name, next, row);
    assert RowsOf(t', name).Keys == RowsOf(t, name).Keys + {next};
    TopIs(RowsOf(t', name).Keys, next);
    forall other | other != name && Contiguous(t, other) ensures Contiguous(t', other) {
      assert RowsOf(t', other) == RowsOf(t, other);
    }
  }

  /** Replacing a row in place moves no head. */
  lemma ReplaceKeepsHeads(t: Table, name: Name, version: nat, row: Row)
    requires version in RowsOf(t, name)
    ensures var t' := Inserted(t, name, version, row);
            && (forall other :: HeadVersion(t', other) == HeadVersion(t, other))
            && (forall other | Contiguous(t, other) :: Contiguous(t', other))
            && (forall other | other != name :: RowsOf(t', other) == RowsOf(t, other))
  {
    var t' := Inserted(t, name, version, row);
    forall other
      ensures HeadVersion(t', other) == HeadVersion(t, other) && (Contiguous(t, other) ==> Contiguous(t', other))
    {
      assert RowsOf(t', other).Keys == RowsOf(t, other).Keys;
    }
  }

  lemma ListedByHead(t: Table, name: Name)
    ensures name.1 in Listed(t, name.0) <==>
              RowsOf(t, name) != map[] && RowsOf(t, name)[HeadVersion(t, name)].tombstone.None?
  {
  }

  /** With the head's master at hand, the listing names exactly the names whose head resolves. */
  lemma ListedExactlyResolvable(ring: Keyring, t: Table, project: string, secret: string)
    requires RowsOf(t, (project, secret)) != map[] ==>
               Open(ring, RowsOf(t, (project, secret))[HeadVersion(t, (project, secret))].sealed).Success?
    ensures secret in Listed(t, project) <==> Resolve(ring, t, (project, secret), 0).Success?
  {
  }

  class SecretService {
    var table: Table

    ghost predicate Valid()
      reads this
    {
      forall name :: Contiguous(table, name)
    }

    constructor ()
      ensures Valid() && table == map[]
    {
      table := map[];
    }

    /** Newest version first, one row. */
    method Head(name: Name) returns (head: Option<(nat, Row)>)
      requires Valid()
      ensures head.None? <==> RowsOf(table, name) == map[]
      ensures head.Some? ==>
                head.value.0 == HeadVersion(table, name) && head.value == (head.value.0, table[name][head.value.0])
    {
      var rows := RowsOf(table, name);
      if rows.Keys == {} {
        return None;
      }
      assert HeadVersion(table, name) in rows.Keys;
      var v :| v in rows.Keys && forall u | u in rows.Keys :: u <= v;
      return Some((v, rows[v]));
    }

    /** The insert; the primary key refuses a version already taken. */
    method TryInsert(name: Name, version: nat, row: Row) returns (ok: bool)
      requires Valid() && 1 <= version <= HeadVersion(table, name) + 1
      modifies this
      ensures Valid() && ok == (version == old(HeadVersion(table, name)) + 1)
      ensures table == if ok then Inserted(old(table), name, version, row) else old(table)
      ensures ok ==> HeadVersion(table, name) == version
    {
      InsertMovesHead(table, name, row);
      if version in RowsOf(table, name) {
        return false;
      }
      table := Inserted(table, name, version, row);
      return true;
    }

    /** Rival rotations of one name, each a read and an insert nobody came between. */
    method Interfere(name: Name, rivals: seq<Row>)
      requires Valid()
      modifies this
      ensures Valid() && HeadVersion(table, name) == old(HeadVersion(table, name)) + |rivals|
      ensures forall v | v in RowsOf(old(table), name) ::
                v in RowsOf(table, name) && RowsOf(table, name)[v] == RowsOf(old(table), name)[v]
      ensures forall other | other != name :: RowsOf(table, other) == RowsOf(old(table), other)
    {
      for i := 0 to |rivals|
        invariant Valid() && HeadVersion(table, name) == old(HeadVersion(table, name)) + i
        invariant forall v | v in RowsOf(old(table), name) ::
                    v in RowsOf(table, name) && RowsOf(table, name)[v] == RowsOf(old(table), name)[v]
        invariant forall other | other != name :: RowsOf(table, other) == RowsOf(old(table), other)
      {
        var head := Head(name);
        var ok := TryInsert(name, (if head.Some? then head.value.0 else 0) + 1, rivals[i]);
      }
    }

    /**
     The bounded retry, with what rivals do in each window between its read and its insert
     given. It gives up exactly when every one of its three windows was hit; otherwise its row
     is the new head, right after the versions it saw land.
     */
    method SetSecret(name: Name, rows: seq<Row>, rivals: seq<seq<Row>>) returns (r: Result<nat, SecretError>)
      requires Valid() && |rows| == |rivals| == 3
      modifies this
      ensures Valid()
      ensures r.Failure? <==> forall i | 0 <= i < 3 :: rivals[i] != []
      ensures r.Failure? ==> r.error == Aborted && HeadVersion(table, name) >= old(HeadVersion(table, name)) + 3
      ensures r.Success? ==>
                && r.value == HeadVersion(table, name) && r.value > old(HeadVersion(table, name))
                && exists i | 0 <= i < 3 :: RowsOf(table, name)[r.value] == rows[i] && rivals[i] == [] &&
                     forall k | 0 <= k < i :: rivals[k] != []
      ensures forall v | v in RowsOf(old(table), name) ::
                v in RowsOf(table, name) && RowsOf(table, name)[v] == RowsOf(old(table), name)[v]
      ensures forall other | other != name :: RowsOf(table, other) == RowsOf(old(table), other)
    {
      for i := 0 to ATTEMPTS
        invariant Valid()
        invariant forall k | 0 <= k < i :: rivals[k] != []
        invariant HeadVersion(table, name) >= old(HeadVersion(table, name)) + i
        invariant forall v | v in RowsOf(old(table), name) ::
                    v in RowsOf(table, name) && RowsOf(table, name)[v] == RowsOf(old(table), name)[v]
        invariant forall other | other != name :: RowsOf(table, other) == RowsOf(old(table), other)
      {
        var head := Head(name);
        var version := (if head.Some? then head.value.0 else 0) + 1;
        Interfere(name, rivals[i]);
        var ok := TryInsert(name, version, rows[i]);
        if ok {
          assert RowsOf(table, name)[version] == rows[i];
          return Success(version);
        }
      }
      return Failure(Aborted);
    }

    /**
     Tombstone exactly the head that was read, if it is still untombstoned when the update
     runs; in between, rivals may insert newer versions or delete that same head first.
     */
    method DeleteSecret(name: Name, call: CallId, rivals: seq<Row>, rivalDelete: Option<CallId>)
      returns (r: Result<(), SecretError>)
      requires Valid()
      modifies this
      ensures Valid()
      ensures r.Failure? ==> r.error == NotFound
      ensures r.Success? <==>
                && rivalDelete.None? && RowsOf(old(table), name) != map[]
                && RowsOf(old(table), name)[old(HeadVersion(table, name))].tombstone.None?
      ensures r.Success? ==>
                var v := old(HeadVersion(table, name));
                && v in RowsOf(table, name)
                && RowsOf(table, name)[v] == RowsOf(old(table), name)[v].(tombstone := Some(call))
                && HeadVersion(table, name) == v + |rivals|
                && (name.1 in Listed(table, name.0) ==> rivals != [])
      ensures forall v | v in RowsOf(old(table), name) && v != old(HeadVersion(table, name)) ::
                v in RowsOf(table, name) && RowsOf(table, name)[v] == RowsOf(old(table), name)[v]
      ensures (RowsOf(old(table), name) == map[] ||
               RowsOf(old(table), name)[old(HeadVersion(table, name))].tombstone.Some?) ==> table == old(table)
      ensures r.Failure? && table != old(table) ==>
                var v := old(HeadVersion(table, name));
                && v in RowsOf(old(table), name) && v in RowsOf(table, name) && rivalDelete.Some?
                && RowsOf(table, name)[v] == RowsOf(old(table), name)[v].(tombstone := rivalDelete)
                && HeadVersion(table, name) == v + |rivals|
      ensures forall other | other != name :: RowsOf(table, other) == RowsOf(old(table), other)
    {
      var head := Head(name);
      if head.None? || head.value.1.tombstone.Some? {
        return Failure(NotFound);
      }
      var v := head.value.0;
      Interfere(name, rivals);
      if rivalDelete.Some? {
        Mark(name, v, rivalDelete.value);
      }
      if RowsOf(table, name)[v].tombstone.Some? {
        return Failure(NotFound);
      }
      Mark(name, v, call);
      ListedByHead(table, name);
      return Success(());
    }

    method Mark(name: Name, version: nat, call: CallId)
      requires Valid() && version in RowsOf(table, name)
      modifies this
      ensures Valid()
      ensures table == Inserted(old(table), name, version, RowsOf(old(table), name)[version].(tombstone := Some(call)))
      ensures HeadVersion(table, name) == old(HeadVersion(table, name))
      ensures forall other | other != name :: RowsOf(table, other) == RowsOf(old(table), other)
    {
      var row := RowsOf(table, name)[version].(tombstone := Some(call));
      ReplaceKeepsHeads(table, name, version, row);
      table := Inserted(table, name, version, row);
    }

    /** One head per name, then the live ones. */
    method ListSecrets(project: string) returns (secrets: set<string>)
      requires Valid()
      ensures secrets == Listed(table, project)
    {
      secrets := {};
      var rest := table.Keys;
      while rest != {}
        invariant rest <= table.Keys
        invariant secrets == set name | name in table.Keys - rest && name.0 == project && table[name] != map[] &&
                                        table[name][HeadVersion(table, name)].tombstone.None? :: name.1
        decreases |rest|
      {
        var name :| name in rest;
        var head := Head(name);
        if name.0 == project && head.Some? && head.value.1.tombstone.None? {
          secrets := secrets + {name.1};
        }
        rest := rest - {name};
      }
    }

    method ResolveSecret(ring: Keyring, name: Name, version: nat) returns (r: Result<(string, nat), SecretError>)
      requires Valid()
      ensures r == Resolve(ring, table, name, version)
    {
      var rows := RowsOf(table, name);
      var v := version;
      if version == 0 {
        var head := Head(name);
        if head.None? || head.value.1.tombstone.Some? {
          return Failure(NotFound);
        }
        v := head.value.0;
      }
      if v !in rows {
        return Failure(NotFound);
      }
      match Open(ring, rows[v].sealed)
      case Success(value) => return Success((value, v));
      case Failure(_) => return Failure(DecryptionFailed);
    }
  }
}

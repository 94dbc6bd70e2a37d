/**
 The key/value service twice: over two partitioned tables (pairs by project and
 namespace, a namespace registry by project), and as the flat map the test runner fakes
 it with. The real one keys by parsed project id and answers with the printed one; the
 fake keys by the id's text. No pair carries a ttl.
 */
module KvStore {
  import opened Prelude

  datatype ValueType = StringType | JsonType | IntegerType | NumberType | BooleanType

  datatype Pair = Pair(project: string, namespace: string, key: string, value: string, valueType: ValueType)

  datatype PairKey = PairKey(project: string, namespace: string, key: string)

  type Uuid = nat

  /** How project ids are read and printed; printing then reading returns the id. */
  datatype IdCodec = IdCodec(parse: string -> Option<Uuid>, show: Uuid -> string)

  ghost predicate CodecOk(ids: IdCodec) {
    forall u: Uuid :: ids.parse(ids.show(u)) == Some(u)
  }

  /** An id that is already in the form the service prints. */
  predicate Canonical(ids: IdCodec, project: string) {
    ids.parse(project).Some? && ids.show(ids.parse(project).value) == project
  }

  datatype KvError = Invalid

  function TypeText(t: ValueType): string {
    match t
    case StringType => "string"
    case JsonType => "json"
    case IntegerType => "integer"
    case NumberType => "number"
    case BooleanType => "boolean"
  }

  function ParseType(text: string): Option<ValueType> {
    if text == "string" then Some(StringType)
    else if text == "json" then Some(JsonType)
    else if text == "number" then Some(NumberType)
    else if text == "integer" then Some(IntegerType)
    else if text == "boolean" then Some(BooleanType)
    else None
  }

  /** The stored metadata reads back as the type it was written from. */
  lemma TypeRoundTrip(t: ValueType)
    ensures ParseType(TypeText(t)) == Some(t)
  {
  }

  datatype Cell = Cell(value: string, typeText: string)

  type Partition = map<string, Cell>

  datatype Tables = Tables(pairs: map<(Uuid, string), Partition>, namespaces: map<Uuid, set<string>>)

  const EMPTY := Tables(map[], map[])

  function PartitionOf(t: Tables, u: Uuid, namespace: string): Partition {
    if (u, namespace) in t.pairs then t.pairs[(u, namespace)] else map[]
  }

  function NamesOf(t: Tables, u: Uuid): set<string> {
    if u in t.namespaces then t.namespaces[u] else {}
  }

  function Registered(t: Tables, u: Uuid, namespace: string): Tables {
    t.(namespaces := t.namespaces[u := NamesOf(t, u) + {namespace}])
  }

  function Put(t: Tables, u: Uuid, pair: Pair): Tables {
    var cell := Cell(pair.value, TypeText(pair.valueType));
    var slot := (u, pair.namespace);
    Registered(t.(pairs := t.pairs[slot := PartitionOf(t, u, pair.namespace)[pair.key := cell]]), u, pair.namespace)
  }

  function Removed(t: Tables, u: Uuid, namespace: string, key: string): Tables {
    t.(pairs := t.pairs[(u, namespace) := PartitionOf(t, u, namespace) - {key}])
  }

  function WithoutNamespace(t: Tables, u: Uuid, namespace: string): Tables {
    Tables(t.pairs - {(u, namespace)}, t.namespaces[u := NamesOf(t, u) - {namespace}])
  }

  /** Only the namespaces the registry names are walked. */
  function WithoutProject(t: Tables, u: Uuid): Tables {
    Tables(map slot | slot in t.pairs && !(slot.0 == u && slot.1 in NamesOf(t, u)) :: t.pairs[slot], t.namespaces - {u})
  }

  datatype Op =
    | SetPairs(pairs: seq<Pair>)
    | DeletePairs(keys: seq<PairKey>)
    | CreateNamespace(project: string, namespace: string)
    | DeleteNamespace(project: string, namespace: string)
    | DeleteProject(project: string)

  /** Writes one by one; an id that does not parse stops the request with the earlier writes done. */
  function SetAll(ids: IdCodec, t: Tables, pairs: seq<Pair>): (Tables, bool) {
    if pairs == [] then (t, true)
    else
      var (t1, ok) := SetAll(ids, t, pairs[..|pairs| - 1]);
      var pair := pairs[|pairs| - 1];
      if !ok || ids.parse(pair.project).None? then (t1, false)
      else (Put(t1, ids.parse(pair.project).value, pair), true)
  }

  function DeleteAll(ids: IdCodec, t: Tables, keys: seq<PairKey>): (Tables, bool) {
    if keys == [] then (t, true)
    else
      var (t1, ok) := DeleteAll(ids, t, keys[..|keys| - 1]);
      var k := keys[|keys| - 1];
      if !ok || ids.parse(k.project).None? then (t1, false)
      else (Removed(t1, ids.parse(k.project).value, k.namespace, k.key), true)
  }

  function Apply(ids: IdCodec, t: Tables, op: Op): Tables {
    match op
    case SetPairs(pairs) => SetAll(ids, t, pairs).0
    case DeletePairs(keys) => DeleteAll(ids, t, keys).0
    case CreateNamespace(p, n) => if ids.parse(p).None? then t else Registered(t, ids.parse(p).value, n)
    case DeleteNamespace(p, n) => if ids.parse(p).None? then t else WithoutNamespace(t, ids.parse(p).value, n)
    case DeleteProject(p) => if ids.parse(p).None? then t else WithoutProject(t, ids.parse(p).value)
  }

  function Get(ids: IdCodec, t: Tables, k: PairKey): Result<Option<Pair>, KvError> {
    if ids.parse(k.project).None? then Failure(Invalid)
    else
      var u := ids.parse(k.project).value;
      var partition := PartitionOf(t, u, k.namespace);
      if k.key !in partition then Success(None)
      else
        match ParseType(partition[k.key].typeText)
        case None => Failure(Invalid)
        case Some(valueType) => Success(Some(Pair(ids.show(u), k.namespace, k.key, partition[k.key].value, valueType)))
  }

  // ---- The fake ----------------------------------------------------------------------

  type Flat = map<PairKey, Pair>

  function KeyOf(pair: Pair): PairKey {
    PairKey(pair.project, pair.namespace, pair.key)
  }

  function FakeSetAll(f: Flat, pairs: seq<Pair>): Flat {
    if pairs == [] then f
    else FakeSetAll(f, pairs[..|pairs| - 1])[KeyOf(pairs[|pairs| - 1]) := pairs[|pairs| - 1]]
  }

  function FakeApply(f: Flat, op: Op): Flat {
    match op
    case SetPairs(pairs) => FakeSetAll(f, pairs)
    case DeletePairs(keys) => f - (set i | 0 <= i < |keys| :: keys[i])
    case CreateNamespace(_, _) => f
    case DeleteNamespace(p, n) => map k | k in f && !(k.project == p && k.namespace == n) :: f[k]
    case DeleteProject(p) => map k | k in f && k.project != p :: f[k]
  }

  function FakeGet(f: Flat, k: PairKey): Option<Pair> {
    if k in f then Some(f[k]) else None
  }

  function Run(ids: IdCodec, ops: seq<Op>): Tables {
    if ops == [] then EMPTY else Apply(ids, Run(ids, ops[..|ops| - 1]), ops[|ops| - 1])
  }

  function FakeRun(ops: seq<Op>): Flat {
    if ops == [] then map[] else FakeApply(FakeRun(ops[..|ops| - 1]), ops[|ops| - 1])
  }

  // ---- Agreement ------------------------------------------------------------------------

  /** Every namespace that holds pairs is registered. */
  ghost predicate PairsRegistered(t: Tables) {
    forall u: Uuid, n | PartitionOf(t, u, n) != map[] :: n in NamesOf(t, u)
  }

  /** The pair one slot of the tables stands for. */
  predicate SlotAgrees(ids: IdCodec, t: Tables, f: Flat, u: Uuid, n: string, k: string) {
    var flat := PairKey(ids.show(u), n, k);
    var partition := PartitionOf(t, u, n);
    && (k in partition <==> flat in f)
    && (flat in f ==> f[flat].project == flat.project && f[flat].namespace == n && f[flat].key == k &&
                      partition[k] == Cell(f[flat].value, TypeText(f[flat].valueType)))
  }

  ghost predicate Agree(ids: IdCodec, t: Tables, f: Flat) {
    forall u: Uuid, n, k :: SlotAgrees(ids, t, f, u, n, k)
  }

  predicate OpCanonical(ids: IdCodec, op: Op) {
    match op
    case SetPairs(pairs) => forall i | 0 <= i < |pairs| :: Canonical(ids, pairs[i].project)
    case DeletePairs(keys) => forall i | 0 <= i < |keys| :: Canonical(ids, keys[i].project)
    case CreateNamespace(p, _) => Canonical(ids, p)
    case DeleteNamespace(p, _) => Canonical(ids, p)
    case DeleteProject(p) => Canonical(ids, p)
  }

  lemma {:induction false} SetAgrees(ids: IdCodec, t: Tables, f: Flat, pairs: seq<Pair>)
    requires CodecOk(ids) && PairsRegistered(t) && Agree(ids, t, f)
    requires forall i | 0 <= i < |pairs| :: Canonical(ids, pairs[i].project)
    ensures SetAll(ids, t, pairs).1
    ensures PairsRegistered(SetAll(ids, t, pairs).0) && Agree(ids, SetAll(ids, t, pairs).0, FakeSetAll(f, pairs))
  {
    if pairs != [] {
      var front, pair := pairs[..|pairs| - 1], pairs[|pairs| - 1];
      SetAgrees(ids, t, f, front);
      var t1, f1 := SetAll(ids, t, front).0, FakeSetAll(f, front);
      var u := ids.parse(pair.project).value;
      PutAgrees(ids, t1, f1, u, pair);
    }
  }

  lemma PutAgrees(ids: IdCodec, t: Tables, f: Flat, u: Uuid, pair: Pair)
    requires CodecOk(ids) && PairsRegistered(t) && Agree(ids, t, f) && ids.show(u) == pair.project
    ensures PairsRegistered(Put(t, u, pair)) && Agree(ids, Put(t, u, pair), f[KeyOf(pair) := pair])
  {
    var t', f' := Put(t, u, pair), f[KeyOf(pair) := pair];
    forall w: Uuid, n, k ensures SlotAgrees(ids, t', f', w, n, k) {
      assert SlotAgrees(ids, t, f, w, n, k);
      assert ids.parse(ids.show(w)) == Some(w);
    }
    forall w: Uuid, n | PartitionOf(t', w, n) != map[] ensures n in NamesOf(t', w) {
      assert PartitionOf(t, w, n) != map[] ==> n in NamesOf(t, w);
    }
  }

  lemma RemoveAgrees(ids: IdCodec, t: Tables, f: Flat, u: Uuid, gone: PairKey)
    requires CodecOk(ids) && PairsRegistered(t) && Agree(ids, t, f) && ids.show(u) == gone.project
    ensures PairsRegistered(Removed(t, u, gone.namespace, gone.key))
    ensures Agree(ids, Removed(t, u, gone.namespace, gone.key), f - {gone})
  {
    var t', f' := Removed(t, u, gone.namespace, gone.key), f - {gone};
    forall w: Uuid, n, k ensures SlotAgrees(ids, t', f', w, n, k) {
      assert SlotAgrees(ids, t, f, w, n, k);
      assert ids.parse(ids.show(w)) == Some(w);
    }
    forall w: Uuid, n | PartitionOf(t', w, n) != map[] ensures n in NamesOf(t', w) {
      assert PartitionOf(t, w, n) != map[];
    }
  }

  lemma NamedKeysStep(front: seq<PairKey>, k: PairKey)
    ensures var keys := front + [k];
            (set i | 0 <= i < |keys| :: keys[i]) == (set i | 0 <= i < |front| :: front[i]) + {k}
  {
    var keys := front + [k];
    assert keys[|front|] == k;
    forall i | 0 <= i < |front| ensures front[i] in (set j | 0 <= j < |keys| :: keys[j]) {
      assert keys[i] == front[i];
    }
  }

  lemma {:induction false} DeleteAgrees(ids: IdCodec, t: Tables, f: Flat, keys: seq<PairKey>)
    requires CodecOk(ids) && PairsRegistered(t) && Agree(ids, t, f)
    requires forall i | 0 <= i < |keys| :: Canonical(ids, keys[i].project)
    ensures DeleteAll(ids, t, keys).1 && PairsRegistered(DeleteAll(ids, t, keys).0)
    ensures Agree(ids, DeleteAll(ids, t, keys).0, FakeApply(f, DeletePairs(keys)))
  {
    if keys == [] {
      assert FakeApply(f, DeletePairs(keys)) == f;
    } else {
      var front, k := keys[..|keys| - 1], keys[|keys| - 1];
      DeleteAgrees(ids, t, f, front);
      RemoveAgrees(ids, DeleteAll(ids, t, front).0, FakeApply(f, DeletePairs(front)), ids.parse(k.project).value, k);
      NamedKeysStep(front, k);
      assert keys == front + [k];
      assert FakeApply(f, DeletePairs(keys)) == FakeApply(f, DeletePairs(front)) - {k};
    }
  }

  lemma DropAgrees(ids: IdCodec, t: Tables, f: Flat, op: Op)
    requires CodecOk(ids) && PairsRegistered(t) && Agree(ids, t, f) && OpCanonical(ids, op)
    requires op.DeleteNamespace? || op.DeleteProject? || op.CreateNamespace?
    ensures PairsRegistered(Apply(ids, t, op)) && Agree(ids, Apply(ids, t, op), FakeApply(f, op))
  {
    var t', f' := Apply(ids, t, op), FakeApply(f, op);
    forall w: Uuid, n, k ensures SlotAgrees(ids, t', f', w, n, k) {
      assert SlotAgrees(ids, t, f, w, n, k);
      assert ids.parse(ids.show(w)) == Some(w);
      assert PartitionOf(t, w, n) != map[] ==> n in NamesOf(t, w);
    }
    forall w: Uuid, n | PartitionOf(t', w, n) != map[] ensures n in NamesOf(t', w) {
      assert PartitionOf(t, w, n) != map[];
    }
  }

  lemma {:induction false} RunsAgree(ids: IdCodec, ops: seq<Op>)
    requires CodecOk(ids) && forall i | 0 <= i < |ops| :: OpCanonical(ids, ops[i])
    ensures PairsRegistered(Run(ids, ops)) && Agree(ids, Run(ids, ops), FakeRun(ops))
  {
    if ops != [] {
      var front, op := ops[..|ops| - 1], ops[|ops| - 1];
      RunsAgree(ids, front);
      match op
      case SetPairs(pairs) => SetAgrees(ids, Run(ids, front), FakeRun(front), pairs);
      case DeletePairs(keys) => DeleteAgrees(ids, Run(ids, front), FakeRun(front), keys);
      case _ => DropAgrees(ids, Run(ids, front), FakeRun(front), op);
    }
  }

  /** Over every sequence of operations on canonical project ids, the store and the fake answer every get alike. */
  lemma FakeIsFaithful(ids: IdCodec, ops: seq<Op>, k: PairKey)
    requires CodecOk(ids) && Canonical(ids, k.project) && forall i | 0 <= i < |ops| :: OpCanonical(ids, ops[i])
    ensures Get(ids, Run(ids, ops), k) == Success(FakeGet(FakeRun(ops), k))
  {
    RunsAgree(ids, ops);
    assert SlotAgrees(ids, Run(ids, ops), FakeRun(ops), ids.parse(k.project).value, k.namespace, k.key);
    if k in FakeRun(ops) {
      TypeRoundTrip(FakeRun(ops)[k].valueType);
    }
  }

  // ---- Last writes -----------------------------------------------------------------------

  /** The last pair of a batch under this key. */
  function LastPair(pairs: seq<Pair>, k: PairKey): Option<Pair> {
    if pairs == [] then None
    else if KeyOf(pairs[|pairs| - 1]) == k then Some(pairs[|pairs| - 1])
    else LastPair(pairs[..|pairs| - 1], k)
  }

  /** The pair last written under a key and not deleted since, read off the operations alone. */
  function LastWrite(ops: seq<Op>, k: PairKey): Option<Pair> {
    if ops == [] then None
    else
      var before := LastWrite(ops[..|ops| - 1], k);
      match ops[|ops| - 1]
      case SetPairs(pairs) => if LastPair(pairs, k).Some? then LastPair(pairs, k) else before
      case DeletePairs(keys) => if k in keys then None else before
      case CreateNamespace(_, _) => before
      case DeleteNamespace(p, n) => if p == k.project && n == k.namespace then None else before
      case DeleteProject(p) => if p == k.project then None else before
  }

  lemma {:induction false} SetAllIsLast(f: Flat, pairs: seq<Pair>, k: PairKey)
    ensures FakeGet(FakeSetAll(f, pairs), k) == if LastPair(pairs, k).Some? then LastPair(pairs, k) else FakeGet(f, k)
  {
    if pairs != [] {
      SetAllIsLast(f, pairs[..|pairs| - 1], k);
    }
  }

  lemma {:induction false} FakeIsLastWrite(ops: seq<Op>, k: PairKey)
    ensures FakeGet(FakeRun(ops), k) == LastWrite(ops, k)
  {
    if ops != [] {
      FakeIsLastWrite(ops[..|ops| - 1], k);
      if ops[|ops| - 1].SetPairs? {
        SetAllIsLast(FakeRun(ops[..|ops| - 1]), ops[|ops| - 1].pairs, k);
      }
    }
  }

  /** A get answers with the last write under its key that nothing deleted since, type and all. */
  lemma GetIsLastWrite(ids: IdCodec, ops: seq<Op>, k: PairKey)
    requires CodecOk(ids) && Canonical(ids, k.project) && forall i | 0 <= i < |ops| :: OpCanonical(ids, ops[i])
    ensures Get(ids, Run(ids, ops), k) == Success(LastWrite(ops, k))
  {
    FakeIsFaithful(ids, ops, k);
    FakeIsLastWrite(ops, k);
  }

  // ---- The registry ------------------------------------------------------------------------

  /** The batch writes into this namespace before it meets an id that does not parse. */
  predicate WritesInto(ids: IdCodec, pairs: seq<Pair>, u: Uuid, n: string) {
    exists i :: 0 <= i < |pairs| && ids.parse(pairs[i].project) == Some(u) && pairs[i].namespace == n &&
                forall j | 0 <= j < i :: ids.parse(pairs[j].project).Some?
  }

  /** Created or written into, and not deleted since. */
  predicate NamedBy(ids: IdCodec, ops: seq<Op>, u: Uuid, n: string) {
    if ops == [] then false
    else
      var before := NamedBy(ids, ops[..|ops| - 1], u, n);
      match ops[|ops| - 1]
      case SetPairs(pairs) => before || WritesInto(ids, pairs, u, n)
      case DeletePairs(_) => before
      case CreateNamespace(p, m) => before || (ids.parse(p) == Some(u) && m == n)
      case DeleteNamespace(p, m) => before && !(ids.parse(p) == Some(u) && m == n)
      case DeleteProject(p) => before && ids.parse(p) != Some(u)
  }

  lemma WritesIntoStep(ids: IdCodec, pairs: seq<Pair>, u: Uuid, n: string)
    requires pairs != []
    ensures var front, pair := pairs[..|pairs| - 1], pairs[|pairs| - 1];
            WritesInto(ids, pairs, u, n) <==>
            || WritesInto(ids, front, u, n)
            || (&& ids.parse(pair.project) == Some(u) && pair.namespace == n
                && forall j | 0 <= j < |front| :: ids.parse(front[j].project).Some?)
  {
    var front := pairs[..|pairs| - 1];
    if WritesInto(ids, front, u, n) {
      var i :| 0 <= i < |front| && ids.parse(front[i].project) == Some(u) && front[i].namespace == n &&
        forall j | 0 <= j < i :: ids.parse(front[j].project).Some?;
      assert pairs[i] == front[i] && forall j | 0 <= j < i :: pairs[j] == front[j];
    }
    if WritesInto(ids, pairs, u, n) {
      var i :| 0 <= i < |pairs| && ids.parse(pairs[i].project) == Some(u) && pairs[i].namespace == n &&
        forall j | 0 <= j < i :: ids.parse(pairs[j].project).Some?;
      if i < |front| {
        assert front[i] == pairs[i] && forall j | 0 <= j < i :: front[j] == pairs[j];
      }
    }
  }

  lemma {:induction false} SetRegisters(ids: IdCodec, t: Tables, pairs: seq<Pair>, u: Uuid, n: string)
    ensures SetAll(ids, t, pairs).1 <==> forall i | 0 <= i < |pairs| :: ids.parse(pairs[i].project).Some?
    ensures n in NamesOf(SetAll(ids, t, pairs).0, u) <==> n in NamesOf(t, u) || WritesInto(ids, pairs, u, n)
  {
    if pairs != [] {
      SetRegisters(ids, t, pairs[..|pairs| - 1], u, n);
      WritesIntoStep(ids, pairs, u, n);
    }
  }

  lemma {:induction false} DeletesRegisterNothing(ids: IdCodec, t: Tables, keys: seq<PairKey>)
    ensures DeleteAll(ids, t, keys).0.namespaces == t.namespaces
  {
    if keys != [] {
      DeletesRegisterNothing(ids, t, keys[..|keys| - 1]);
    }
  }

  /** The registry names exactly the namespaces created or written into and not deleted since,
      spelling of the project's id aside. */
  lemma {:induction false} RegistryNamesExactly(ids: IdCodec, ops: seq<Op>, u: Uuid, n: string)
    ensures n in NamesOf(Run(ids, ops), u) <==> NamedBy(ids, ops, u, n)
  {
    if ops != [] {
      var t, op := Run(ids, ops[..|ops| - 1]), ops[|ops| - 1];
      RegistryNamesExactly(ids, ops[..|ops| - 1], u, n);
      match op
      case SetPairs(pairs) => SetRegisters(ids, t, pairs, u, n);
      case DeletePairs(keys) => DeletesRegisterNothing(ids, t, keys);
      case _ =>
    }
  }

  predicate OpOn(op: Op, project: string) {
    match op
    case SetPairs(pairs) => forall i | 0 <= i < |pairs| :: pairs[i].project == project
    case DeletePairs(keys) => forall i | 0 <= i < |keys| :: keys[i].project == project
    case CreateNamespace(p, _) => p == project
    case DeleteNamespace(p, _) => p == project
    case DeleteProject(p) => p == project
  }

  /** The two agree on a project, over every sequence of operations on it. */
  ghost predicate Faithful(ids: IdCodec, project: string) {
    forall ops: seq<Op>, k: PairKey | k.project == project && (forall i | 0 <= i < |ops| :: OpOn(ops[i], project)) ::
      Get(ids, Run(ids, ops), k) == Success(FakeGet(FakeRun(ops), k))
  }

  /** They agree on exactly the ids already written the way the service prints them: an id that
      does not parse, or parses from another spelling, is told apart by one write and one read. */
  lemma FaithfulExactlyWhenCanonical(ids: IdCodec, project: string)
    requires CodecOk(ids)
    ensures Faithful(ids, project) <==> Canonical(ids, project)
  {
    if Canonical(ids, project) {
      forall ops: seq<Op>, k: PairKey | k.project == project && (forall i | 0 <= i < |ops| :: OpOn(ops[i], project))
        ensures Get(ids, Run(ids, ops), k) == Success(FakeGet(FakeRun(ops), k))
      {
        FakeIsFaithful(ids, ops, k);
      }
    } else {
      var pair := Pair(project, "n", "k", "v", StringType);
      var ops := [SetPairs([pair])];
      assert ops[..0] == [] && [pair][..0] == [];
      assert FakeRun(ops) == FakeApply(FakeRun([]), ops[0]);
      assert FakeSetAll(map[], [pair]) == FakeSetAll(map[], [])[KeyOf(pair) := pair];
      assert FakeGet(FakeRun(ops), KeyOf(pair)) == Some(pair);
      assert OpOn(ops[0], project);
      assert Get(ids, Run(ids, ops), KeyOf(pair)) != Success(Some(pair));
    }
  }

  // ---- What the fake is good for on an id of its own ------------------------------------------

  function RenamedPairs(pairs: seq<Pair>, project: string): (r: seq<Pair>)
    ensures |r| == |pairs| && forall i | 0 <= i < |r| :: r[i] == pairs[i].(project := project)
  {
    seq(|pairs|, i requires 0 <= i < |pairs| => pairs[i].(project := project))
  }

  function RenamedKeys(keys: seq<PairKey>, project: string): (r: seq<PairKey>)
    ensures |r| == |keys| && forall i | 0 <= i < |r| :: r[i] == keys[i].(project := project)
  {
    seq(|keys|, i requires 0 <= i < |keys| => keys[i].(project := project))
  }

  function RenamedOp(op: Op, project: string): Op {
    match op
    case SetPairs(pairs) => SetPairs(RenamedPairs(pairs, project))
    case DeletePairs(keys) => DeletePairs(RenamedKeys(keys, project))
    case CreateNamespace(_, n) => CreateNamespace(project, n)
    case DeleteNamespace(_, n) => DeleteNamespace(project, n)
    case DeleteProject(_) => DeleteProject(project)
  }

  function RenamedOps(ops: seq<Op>, project: string): (r: seq<Op>)
    ensures |r| == |ops| && forall i | 0 <= i < |r| :: r[i] == RenamedOp(ops[i], project)
  {
    seq(|ops|, i requires 0 <= i < |ops| => RenamedOp(ops[i], project))
  }

  function RenamedGet(found: Option<Pair>, project: string): Option<Pair> {
    match found
    case None => None
    case Some(pair) => Some(pair.(project := project))
  }

  /** One map holds under `p` what the other holds under `q`. */
  ghost predicate Renames(f: Flat, g: Flat, p: string, q: string) {
    forall n, k :: FakeGet(g, PairKey(q, n, k)) == RenamedGet(FakeGet(f, PairKey(p, n, k)), q)
  }

  lemma {:induction false} SetRenames(f: Flat, g: Flat, p: string, q: string, pairs: seq<Pair>)
    requires Renames(f, g, p, q) && forall i | 0 <= i < |pairs| :: pairs[i].project == p
    ensures Renames(FakeSetAll(f, pairs), FakeSetAll(g, RenamedPairs(pairs, q)), p, q)
  {
    if pairs != [] {
      var front, pair := pairs[..|pairs| - 1], pairs[|pairs| - 1];
      SetRenames(f, g, p, q, front);
      assert RenamedPairs(pairs, q)[..|pairs| - 1] == RenamedPairs(front, q);
      var f1, g1 := FakeSetAll(f, front), FakeSetAll(g, RenamedPairs(front, q));
      forall n, k ensures FakeGet(FakeSetAll(g, RenamedPairs(pairs, q)), PairKey(q, n, k))
                       == RenamedGet(FakeGet(FakeSetAll(f, pairs), PairKey(p, n, k)), q)
      {
        assert FakeGet(g1, PairKey(q, n, k)) == RenamedGet(FakeGet(f1, PairKey(p, n, k)), q);
      }
    }
  }

  lemma ApplyRenames(f: Flat, g: Flat, p: string, q: string, op: Op)
    requires Renames(f, g, p, q) && OpOn(op, p)
    ensures Renames(FakeApply(f, op), FakeApply(g, RenamedOp(op, q)), p, q)
  {
    if op.SetPairs? {
      SetRenames(f, g, p, q, op.pairs);
    } else {
      forall n, k ensures FakeGet(FakeApply(g, RenamedOp(op, q)), PairKey(q, n, k))
                       == RenamedGet(FakeGet(FakeApply(f, op), PairKey(p, n, k)), q)
      {
        assert FakeGet(g, PairKey(q, n, k)) == RenamedGet(FakeGet(f, PairKey(p, n, k)), q);
        if op.DeletePairs? {
          NamedInBoth(op.keys, p, q, n, k);
        }
      }
    }
  }

  lemma NamedInBoth(keys: seq<PairKey>, p: string, q: string, n: string, k: string)
    requires forall i | 0 <= i < |keys| :: keys[i].project == p
    ensures PairKey(p, n, k) in keys <==> PairKey(q, n, k) in RenamedKeys(keys, q)
  {
    if PairKey(p, n, k) in keys {
      var i :| 0 <= i < |keys| && keys[i] == PairKey(p, n, k);
      assert RenamedKeys(keys, q)[i] == PairKey(q, n, k);
    }
  }

  lemma {:induction false} RunRenames(p: string, q: string, ops: seq<Op>)
    requires forall i | 0 <= i < |ops| :: OpOn(ops[i], p)
    ensures Renames(FakeRun(ops), FakeRun(RenamedOps(ops, q)), p, q)
  {
    if ops != [] {
      var front := ops[..|ops| - 1];
      RunRenames(p, q, front);
      assert RenamedOps(ops, q)[..|ops| - 1] == RenamedOps(front, q);
      ApplyRenames(FakeRun(front), FakeRun(RenamedOps(front, q)), p, q, ops[|ops| - 1]);
    }
  }

  /**
   The test runner uses the fake under one fixed id that need not be a project id at all. Over
   every sequence of operations it answers every get as the service answers the same sequence
   on a real project, but for that project's id in the answer.
   */
  lemma FakeStandsIn(ids: IdCodec, p: string, q: string, ops: seq<Op>, n: string, k: string)
    requires CodecOk(ids) && Canonical(ids, q) && forall i | 0 <= i < |ops| :: OpOn(ops[i], p)
    ensures Get(ids, Run(ids, RenamedOps(ops, q)), PairKey(q, n, k))
            == Success(RenamedGet(FakeGet(FakeRun(ops), PairKey(p, n, k)), q))
  {
    RunRenames(p, q, ops);
    FakeIsFaithful(ids, RenamedOps(ops, q), PairKey(q, n, k));
  }

  // ---- The two services as they run ---------------------------------------------------------

  class Database {
    const ids: IdCodec
    var pairs: map<(Uuid, string), Partition>
    var namespaces: map<Uuid, set<string>>

    ghost function View(): Tables
      reads this
    {
      Tables(pairs, namespaces)
    }

    constructor (ids: IdCodec)
      ensures this.ids == ids && View() == EMPTY
    {
      this.ids := ids;
      pairs, namespaces := map[], map[];
    }

    method RegisterNamespace(u: Uuid, namespace: string)
      modifies this`namespaces
      ensures View() == Registered(old(View()), u, namespace)
    {
      namespaces := namespaces[u := (if u in namespaces then namespaces[u] else {}) + {namespace}];
    }

    method CreateNamespace(project: string, namespace: string) returns (ok: bool)
      modifies this`namespaces
      ensures ok == ids.parse(project).Some?
      ensures View() == Apply(ids, old(View()), Op.CreateNamespace(project, namespace))
    {
      var id := ids.parse(project);
      if id.None? {
        return false;
      }
      RegisterNamespace(id.value, namespace);
      return true;
    }

    method Set(batch: seq<Pair>) returns (ok: bool)
      modifies this
      ensures (View(), ok) == SetAll(ids, old(View()), batch)
      ensures ok <==> forall i | 0 <= i < |batch| :: ids.parse(batch[i].project).Some?
    {
      for i := 0 to |batch|
        invariant SetAll(ids, old(View()), batch[..i]) == (View(), true)
        invariant forall k | 0 <= k < i :: ids.parse(batch[k].project).Some?
      {
        var pair := batch[i];
        var id := ids.parse(pair.project);
        if id.None? {
          SetStops(ids, old(View()), batch, i);
          return false;
        }
        SetAllStep(ids, old(View()), batch, i);
        var slot := (id.value, pair.namespace);
        var partition := if slot in pairs then pairs[slot] else map[];
        pairs := pairs[slot := partition[pair.key := Cell(pair.value, TypeText(pair.valueType))]];
        RegisterNamespace(id.value, pair.namespace);
      }
      assert batch[..|batch|] == batch;
      return true;
    }

    method Delete(batch: seq<PairKey>) returns (ok: bool)
      modifies this`pairs
      ensures (View(), ok) == DeleteAll(ids, old(View()), batch)
      ensures ok <==> forall i | 0 <= i < |batch| :: ids.parse(batch[i].project).Some?
    {
      for i := 0 to |batch|
        invariant DeleteAll(ids, old(View()), batch[..i]) == (View(), true)
        invariant forall k | 0 <= k < i :: ids.parse(batch[k].project).Some?
      {
        assert batch[..i + 1][..i] == batch[..i];
        var id := ids.parse(batch[i].project);
        if id.None? {
          DeleteStops(ids, old(View()), batch, i);
          return false;
        }
        var slot := (id.value, batch[i].namespace);
        pairs := pairs[slot := (if slot in pairs then pairs[slot] else map[]) - {batch[i].key}];
      }
      assert batch[..|batch|] == batch;
      return true;
    }

    /** Deletes each registered namespace's partition in turn, then the registry rows. */
    method DeleteProject(project: string) returns (ok: bool)
      modifies this
      ensures ok == ids.parse(project).Some?
      ensures View() == Apply(ids, old(View()), Op.DeleteProject(project))
    {
      var id := ids.parse(project);
      if id.None? {
        return false;
      }
      var u := id.value;
      var names := if u in namespaces then namespaces[u] else {};
      var rest := names;
      while rest != {}
        invariant rest <= names && namespaces == old(namespaces)
        invariant pairs == map slot | slot in old(pairs) && !(slot.0 == u && slot.1 in names - rest) :: old(pairs)[slot]
        decreases |rest|
      {
        var name :| name in rest;
        pairs := pairs - {(u, name)};
        rest := rest - {name};
      }
      namespaces := namespaces - {u};
      return true;
    }

    method DeleteNamespace(project: string, namespace: string) returns (ok: bool)
      modifies this
      ensures ok == ids.parse(project).Some?
      ensures View() == Apply(ids, old(View()), Op.DeleteNamespace(project, namespace))
    {
      var id := ids.parse(project);
      if id.None? {
        return false;
      }
      pairs := pairs - {(id.value, namespace)};
      namespaces := namespaces[id.value := (if id.value in namespaces then namespaces[id.value] else {}) - {namespace}];
      return true;
    }
  }

  lemma SetAllStep(ids: IdCodec, t: Tables, pairs: seq<Pair>, i: nat)
    requires i < |pairs| && SetAll(ids, t, pairs[..i]).1 && ids.parse(pairs[i].project).Some?
    ensures SetAll(ids, t, pairs[..i + 1])
            == (Put(SetAll(ids, t, pairs[..i]).0, ids.parse(pairs[i].project).value, pairs[i]), true)
  {
    assert pairs[..i + 1][..i] == pairs[..i];
  }

  lemma {:induction false} SetStops(ids: IdCodec, t: Tables, pairs: seq<Pair>, i: nat)
    requires i < |pairs| && SetAll(ids, t, pairs[..i]).1 && ids.parse(pairs[i].project).None?
    ensures SetAll(ids, t, pairs) == (SetAll(ids, t, pairs[..i]).0, false)
  {
    if i == |pairs| - 1 {
    } else {
      assert pairs[..|pairs| - 1][..i] == pairs[..i];
      SetStops(ids, t, pairs[..|pairs| - 1], i);
    }
  }

  lemma {:induction false} DeleteStops(ids: IdCodec, t: Tables, keys: seq<PairKey>, i: nat)
    requires i < |keys| && DeleteAll(ids, t, keys[..i]).1 && ids.parse(keys[i].project).None?
    ensures DeleteAll(ids, t, keys) == (DeleteAll(ids, t, keys[..i]).0, false)
  {
    if i == |keys| - 1 {
    } else {
      assert keys[..|keys| - 1][..i] == keys[..i];
      DeleteStops(ids, t, keys[..|keys| - 1], i);
    }
  }

  class FakeKv {
    var pairs: Flat

    constructor ()
      ensures pairs == map[]
    {
      pairs := map[];
    }

    method SetPairs(batch: seq<Pair>)
      modifies this
      ensures pairs == FakeApply(old(pairs), Op.SetPairs(batch))
    {
      for i := 0 to |batch|
        invariant pairs == FakeSetAll(old(pairs), batch[..i])
      {
        assert batch[..i + 1][..i] == batch[..i];
        pairs := pairs[KeyOf(batch[i]) := batch[i]];
      }
      assert batch[..|batch|] == batch;
    }

    method DeletePairs(keys: seq<PairKey>)
      modifies this
      ensures pairs == FakeApply(old(pairs), Op.DeletePairs(keys))
    {
      for i := 0 to |keys|
        invariant pairs == old(pairs) - (set k | 0 <= k < i :: keys[k])
      {
        pairs := pairs - {keys[i]};
      }
    }

    method DeleteProject(project: string)
      modifies this
      ensures pairs == FakeApply(old(pairs), Op.DeleteProject(project))
    {
      pairs := map k | k in pairs && k.project != project :: pairs[k];
    }

    method DeleteNamespace(project: string, namespace: string)
      modifies this
      ensures pairs == FakeApply(old(pairs), Op.DeleteNamespace(project, namespace))
    {
      pairs := map k | k in pairs && !(k.project == project && k.namespace == namespace) :: pairs[k];
    }
  }
}

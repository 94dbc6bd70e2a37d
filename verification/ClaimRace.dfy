/**
 The claim taken apart into the statements it issues after its reap. Claims for one object
 interleave: insert the lease row if there is none, read the row's holder, then bump the epoch
 if the row was inserted or read it if it was not; meanwhile a reap, a release or a
 deregistration may free the lease at any point. What survives is that fresh epochs are
 distinct and never reused; their order, the holder named in the reply, and the epoch of a
 re-claim survive exactly as far as stated here.
 */
module ClaimRace {
  import opened Prelude

  type Claim = nat
  type Node = nat

  datatype Reply = Reply(holder: Node, acquired: bool, epoch: nat)

  /** How far a claim has come. `Raced` is the error for a row that was gone again when it was read. */
  datatype Stage = Tried(inserted: bool) | Saw(inserted: bool, holder: Node) | Raced | Told(reply: Reply)

  datatype Race = Race(
    lease: Option<Claim>,              // whose insert the row is
    epoch: nat,                        // 0 before the first row
    stages: map<Claim, Stage>,
    wins: seq<Claim>,                  // order of lease inserts
    epochs: map<Claim, nat>,           // what a fresh claim was told
    defaulted: set<Claim>)             // re-claims of the holder's node that found no epoch row and took the default

  datatype Statement =
    | InsertLease(c: Claim)
    | SelectHolder(c: Claim)
    | BumpEpoch(c: Claim)
    | ReadEpoch(c: Claim)
    | FreeLease

  const START := Race(None, 0, map[], [], map[], {})

  predicate At(r: Race, c: Claim, stage: Stage) {
    c in r.stages && r.stages[c] == stage
  }

  /** About to bump: the row was inserted and read. */
  predicate Owing(r: Race, c: Claim) {
    c in r.stages && r.stages[c].Saw? && r.stages[c].inserted
  }

  function Current(r: Race): nat {
    if r.epoch < 1 then 1 else r.epoch
  }

  function Execute(node: Claim -> Node, r: Race, st: Statement): Race {
    match st
    case InsertLease(c) =>
      if c in r.stages then r
      else if r.lease.Some? then r.(stages := r.stages[c := Tried(false)])
      else r.(lease := Some(c), stages := r.stages[c := Tried(true)], wins := r.wins + [c])
    case SelectHolder(c) =>
      if c !in r.stages || !r.stages[c].Tried? then r
      else
        r.(stages := r.stages[c :=
          if r.lease.None? then Raced else Saw(r.stages[c].inserted, node(r.lease.value))])
    case BumpEpoch(c) =>
      if !Owing(r, c) then r
      else
        r.(epoch := r.epoch + 1, epochs := r.epochs[c := r.epoch + 1],
        stages := r.stages[c := Told(Reply(r.stages[c].holder, true, r.epoch + 1))])
    case ReadEpoch(c) =>
      if c !in r.stages || !r.stages[c].Saw? || r.stages[c].inserted then r
      else
        var acquired := r.stages[c].holder == node(c);
        r.(stages := r.stages[c := Told(Reply(r.stages[c].holder, acquired, Current(r)))],
        defaulted := if acquired && r.epoch == 0 then r.defaulted + {c} else r.defaulted)
    case FreeLease => r.(lease := None)
  }

  function ExecuteAll(node: Claim -> Node, sts: seq<Statement>): Race {
    if sts == [] then START else Execute(node, ExecuteAll(node, sts[..|sts| - 1]), sts[|sts| - 1])
  }

  lemma ExecuteStep(node: Claim -> Node, sts: seq<Statement>, st: Statement)
    ensures ExecuteAll(node, sts + [st]) == Execute(node, ExecuteAll(node, sts), st)
  {
  }

  ghost predicate Distinct(r: Race) {
    && (forall c | c in r.epochs :: 1 <= r.epochs[c] <= r.epoch && c in r.wins && c in r.stages && r.stages[c].Told?)
    && (forall a, b | a in r.epochs && b in r.epochs && a != b :: r.epochs[a] != r.epochs[b])
  }

  ghost predicate NoRepeats(wins: seq<Claim>) {
    forall i, j | 0 <= i < j < |wins| :: wins[i] != wins[j]
  }

  predicate Inserted(r: Race, c: Claim) {
    c in r.stages && (r.stages[c].Tried? || r.stages[c].Saw?) && r.stages[c].inserted
  }

  ghost predicate RowsInv(r: Race) {
    && NoRepeats(r.wins)
    && (forall i | 0 <= i < |r.wins| :: r.wins[i] in r.stages)
    && (forall c | Inserted(r, c) :: c in r.wins && c !in r.epochs)
    && (r.lease.Some? ==> r.wins != [] && r.wins[|r.wins| - 1] == r.lease.value)
  }

  lemma RowsInserted(r: Race, r': Race, c: Claim)
    requires RowsInv(r) && c !in r.stages && c !in r.epochs
    requires r'.lease == Some(c) && r'.stages == r.stages[c := Tried(true)]
    requires r'.wins == r.wins + [c] && r'.epochs == r.epochs
    ensures RowsInv(r')
  {
    forall d | Inserted(r', d) ensures d in r'.wins && d !in r'.epochs {
      if d == c {
        assert r'.wins[|r.wins|] == c;
      } else {
        assert Inserted(r, d);
      }
    }
  }

  lemma RowsKept(r: Race, r': Race)
    requires RowsInv(r) && r'.wins == r.wins && (r'.lease == r.lease || r'.lease.None?)
    requires r.stages.Keys <= r'.stages.Keys
    requires forall c | Inserted(r', c) :: Inserted(r, c) && (c in r'.epochs ==> c in r.epochs)
    ensures RowsInv(r')
  {
  }

  lemma RowsStep(node: Claim -> Node, r: Race, st: Statement)
    requires RowsInv(r) && Distinct(r)
    ensures RowsInv(Execute(node, r, st))
  {
    var r' := Execute(node, r, st);
    if st.InsertLease? && st.c !in r.stages && r.lease.None? {
      RowsInserted(r, r', st.c);
    } else {
      RowsKept(r, r');
    }
  }

  lemma DistinctBump(r: Race, r': Race, c: Claim)
    requires Distinct(r) && c in r.wins && c !in r.epochs
    requires r'.epoch == r.epoch + 1 && r'.epochs == r.epochs[c := r.epoch + 1] && r'.wins == r.wins
    requires c in r'.stages && r'.stages[c].Told?
    requires forall d | d in r.epochs :: d in r'.stages && r'.stages[d].Told?
    ensures Distinct(r')
  {
  }

  lemma DistinctKept(r: Race, r': Race)
    requires Distinct(r) && r'.epoch == r.epoch && r'.epochs == r.epochs && r.wins <= r'.wins
    requires forall d | d in r.epochs :: d in r'.stages && r'.stages[d].Told?
    ensures Distinct(r')
  {
    forall c | c in r'.epochs ensures c in r'.wins {
      var i :| 0 <= i < |r.wins| && r.wins[i] == c;
      assert r'.wins[i] == c;
    }
  }

  lemma DistinctStep(node: Claim -> Node, r: Race, st: Statement)
    requires RowsInv(r) && Distinct(r)
    ensures Distinct(Execute(node, r, st))
  {
    if st.BumpEpoch? && Owing(r, st.c) {
      assert Inserted(r, st.c);
      DistinctBump(r, Execute(node, r, st), st.c);
    } else {
      DistinctKept(r, Execute(node, r, st));
    }
  }

  lemma {:induction false} RaceAlways(node: Claim -> Node, sts: seq<Statement>)
    ensures RowsInv(ExecuteAll(node, sts)) && Distinct(ExecuteAll(node, sts))
  {
    if sts != [] {
      var front := sts[..|sts| - 1];
      RaceAlways(node, front);
      RowsStep(node, ExecuteAll(node, front), sts[|sts| - 1]);
      DistinctStep(node, ExecuteAll(node, front), sts[|sts| - 1]);
    }
  }

  /** Over every interleaving of statements, no two fresh claims are told the same epoch. */
  lemma FreshEpochsDistinct(node: Claim -> Node, sts: seq<Statement>)
    ensures Distinct(ExecuteAll(node, sts))
  {
    RaceAlways(node, sts);
  }

  lemma EpochsStep(node: Claim -> Node, r: Race, st: Statement, c: Claim)
    requires RowsInv(r) && Distinct(r)
    ensures var r' := Execute(node, r, st);
            && r'.epoch >= r.epoch && r.wins <= r'.wins
            && (c in r.epochs ==> c in r'.epochs && r'.epochs[c] == r.epochs[c])
            && (c in r'.epochs && c !in r.epochs ==> st == BumpEpoch(c) && r'.epochs[c] == r.epoch + 1 && Owing(r, c))
  {
    if st.BumpEpoch? && Owing(r, st.c) {
      assert Inserted(r, st.c);
    }
  }

  /** If the earlier claimant has bumped before the later one inserts its lease, the later epoch is higher. */
  lemma {:induction false} UnpausedClaimsKeepOrder(node: Claim -> Node, before: seq<Statement>, after: seq<Statement>,
                                                   a: Claim, b: Claim)
    requires a in ExecuteAll(node, before).epochs && b !in ExecuteAll(node, before).wins
    ensures var r := ExecuteAll(node, before + after);
            && a in r.epochs && r.epochs[a] == ExecuteAll(node, before).epochs[a]
            && r.epoch >= ExecuteAll(node, before).epoch
            && (b in r.epochs ==> r.epochs[b] > r.epochs[a])
  {
    RaceAlways(node, before);
    if after == [] {
      assert before + after == before;
    } else {
      var front, st := after[..|after| - 1], after[|after| - 1];
      assert before + after == before + front + [st];
      ExecuteStep(node, before + front, st);
      UnpausedClaimsKeepOrder(node, before, front, a, b);
      RaceAlways(node, before + front);
      EpochsStep(node, ExecuteAll(node, before + front), st, a);
      EpochsStep(node, ExecuteAll(node, before + front), st, b);
    }
  }

  // ---- Order -----------------------------------------------------------------------------

  /** Whoever inserted the lease later was told the higher epoch. */
  ghost predicate InOrder(r: Race) {
    forall i, j | 0 <= i < j < |r.wins| && r.wins[i] in r.epochs && r.wins[j] in r.epochs ::
      r.epochs[r.wins[i]] < r.epochs[r.wins[j]]
  }

  /** A claim bumps although one that inserted its lease later has bumped already. */
  ghost predicate LateBump(r: Race, st: Statement) {
    && st.BumpEpoch? && Owing(r, st.c)
    && exists i, j :: 0 <= i < j < |r.wins| && r.wins[i] == st.c && r.wins[j] in r.epochs
  }

  lemma InOrderBump(r: Race, c: Claim, r': Race)
    requires RowsInv(r) && Distinct(r) && Inserted(r, c)
    requires r'.wins == r.wins && r'.epochs == r.epochs[c := r.epoch + 1]
    ensures InOrder(r') <==>
            InOrder(r) && !(exists i, j :: 0 <= i < j < |r.wins| && r.wins[i] == c && r.wins[j] in r.epochs)
  {
    if InOrder(r') {
      forall i, j | 0 <= i < j < |r.wins| && r.wins[i] in r.epochs && r.wins[j] in r.epochs
        ensures r.epochs[r.wins[i]] < r.epochs[r.wins[j]]
      {
        assert r'.epochs[r'.wins[i]] < r'.epochs[r'.wins[j]];
      }
    }
  }

  lemma InOrderKept(r: Race, r': Race)
    requires r'.epochs == r.epochs && r.wins <= r'.wins
    requires forall i | |r.wins| <= i < |r'.wins| :: r'.wins[i] !in r.epochs
    ensures InOrder(r') <==> InOrder(r)
  {
    if InOrder(r') {
      forall i, j | 0 <= i < j < |r.wins| && r.wins[i] in r.epochs && r.wins[j] in r.epochs
        ensures r.epochs[r.wins[i]] < r.epochs[r.wins[j]]
      {
        assert r'.wins[i] == r.wins[i] && r'.wins[j] == r.wins[j];
      }
    }
  }

  lemma InOrderStep(node: Claim -> Node, r: Race, st: Statement)
    requires RowsInv(r) && Distinct(r)
    ensures InOrder(Execute(node, r, st)) <==> InOrder(r) && !LateBump(r, st)
  {
    if st.BumpEpoch? && Owing(r, st.c) {
      InOrderBump(r, st.c, Execute(node, r, st));
    } else {
      InOrderKept(r, Execute(node, r, st));
    }
  }

  ghost predicate LateAt(node: Claim -> Node, sts: seq<Statement>, k: nat)
    requires k < |sts|
  {
    LateBump(ExecuteAll(node, sts[..k]), sts[k])
  }

  lemma LateShift(node: Claim -> Node, sts: seq<Statement>)
    requires sts != []
    ensures var front := sts[..|sts| - 1];
            (forall k: nat | k < |sts| :: !LateAt(node, sts, k)) <==>
            (forall k: nat | k < |front| :: !LateAt(node, front, k)) &&
            !LateBump(ExecuteAll(node, front), sts[|sts| - 1])
  {
    var front := sts[..|sts| - 1];
    forall k: nat | k < |front| ensures LateAt(node, front, k) == LateAt(node, sts, k) {
      assert front[..k] == sts[..k];
    }
    assert LateAt(node, sts, |front|) == LateBump(ExecuteAll(node, front), sts[|sts| - 1]);
  }

  /**
   Over every interleaving: epochs follow the order of the lease inserts if and only if no claim
   ever bumps after a later winner has.
   */
  lemma {:induction false} EpochsFollowLeasesExactly(node: Claim -> Node, sts: seq<Statement>)
    ensures InOrder(ExecuteAll(node, sts)) <==> forall k: nat | k < |sts| :: !LateAt(node, sts, k)
  {
    if sts != [] {
      var front := sts[..|sts| - 1];
      EpochsFollowLeasesExactly(node, front);
      LateShift(node, sts);
      RaceAlways(node, front);
      InOrderStep(node, ExecuteAll(node, front), sts[|sts| - 1]);
    }
  }

  /** A claim that inserted its lease before `h` did bumps after `h` has. */
  ghost predicate Overtakes(r: Race, st: Statement, h: Claim) {
    && st.BumpEpoch? && Owing(r, st.c) && h in r.epochs
    && exists i, j :: 0 <= i < j < |r.wins| && r.wins[i] == st.c && r.wins[j] == h
  }

  ghost predicate OvertakenAt(node: Claim -> Node, sts: seq<Statement>, k: nat, h: Claim)
    requires k < |sts|
  {
    Overtakes(ExecuteAll(node, sts[..k]), sts[k], h)
  }

  ghost predicate Highest(r: Race, h: Claim) {
    h in r.epochs && forall c | c in r.epochs :: r.epochs[c] <= r.epochs[h]
  }

  ghost predicate LastWinner(r: Race, h: Claim) {
    r.wins != [] && r.wins[|r.wins| - 1] == h
  }

  lemma HighestBump(r: Race, r': Race, c: Claim, h: Claim)
    requires RowsInv(r) && Distinct(r) && LastWinner(r, h) && h in r.epochs && Inserted(r, c)
    requires r'.epochs == r.epochs[c := r.epoch + 1]
    ensures !Highest(r', h)
    ensures exists i, j :: 0 <= i < j < |r.wins| && r.wins[i] == c && r.wins[j] == h
  {
    var i :| 0 <= i < |r.wins| && r.wins[i] == c;
    assert i < |r.wins| - 1 && r.wins[|r.wins| - 1] == h;
    assert r'.epochs[c] > r'.epochs[h];
  }

  lemma StaysLastWinner(node: Claim -> Node, r: Race, st: Statement, h: Claim)
    requires RowsInv(r) && Distinct(r) && h in r.epochs && LastWinner(Execute(node, r, st), h)
    ensures LastWinner(r, h)
  {
    var i :| 0 <= i < |r.wins| && r.wins[i] == h;
  }

  lemma HighestStep(node: Claim -> Node, r: Race, st: Statement, h: Claim)
    requires RowsInv(r) && Distinct(r) && h in r.epochs && LastWinner(Execute(node, r, st), h)
    ensures LastWinner(r, h) && (Highest(Execute(node, r, st), h) <==> Highest(r, h) && !Overtakes(r, st, h))
  {
    StaysLastWinner(node, r, st, h);
    if st.BumpEpoch? && Owing(r, st.c) {
      HighestBump(r, Execute(node, r, st), st.c, h);
    } else {
      assert Execute(node, r, st).epochs == r.epochs;
    }
  }

  lemma FirstBumpIsHighest(node: Claim -> Node, r: Race, st: Statement, h: Claim)
    requires RowsInv(r) && Distinct(r) && h !in r.epochs && h in Execute(node, r, st).epochs
    ensures Highest(Execute(node, r, st), h)
  {
  }

  lemma {:induction false} NotYetTold(node: Claim -> Node, sts: seq<Statement>, h: Claim, k: nat)
    requires k <= |sts| && h !in ExecuteAll(node, sts).epochs
    ensures h !in ExecuteAll(node, sts[..k]).epochs
  {
    if k < |sts| {
      var front := sts[..|sts| - 1];
      RaceAlways(node, front);
      EpochsStep(node, ExecuteAll(node, front), sts[|sts| - 1], h);
      NotYetTold(node, front, h, k);
      assert front[..k] == sts[..k];
    } else {
      assert sts[..k] == sts;
    }
  }

  lemma OvertakenShift(node: Claim -> Node, sts: seq<Statement>, h: Claim)
    requires sts != []
    ensures var front := sts[..|sts| - 1];
            (forall k: nat | k < |sts| :: !OvertakenAt(node, sts, k, h)) <==>
            (forall k: nat | k < |front| :: !OvertakenAt(node, front, k, h)) &&
            !Overtakes(ExecuteAll(node, front), sts[|sts| - 1], h)
  {
    var front := sts[..|sts| - 1];
    forall k: nat | k < |front| ensures OvertakenAt(node, front, k, h) == OvertakenAt(node, sts, k, h) {
      assert front[..k] == sts[..k];
    }
    assert OvertakenAt(node, sts, |front|, h) == Overtakes(ExecuteAll(node, front), sts[|sts| - 1], h);
  }

  lemma NotYetOvertaken(node: Claim -> Node, sts: seq<Statement>, h: Claim)
    requires h !in ExecuteAll(node, sts).epochs
    ensures forall k: nat | k < |sts| :: !OvertakenAt(node, sts, k, h)
  {
    forall k: nat | k < |sts| ensures !OvertakenAt(node, sts, k, h) {
      NotYetTold(node, sts, h, k);
    }
  }

  lemma {:induction false} LastWinnerHighest(node: Claim -> Node, sts: seq<Statement>, h: Claim)
    requires h in ExecuteAll(node, sts).epochs && LastWinner(ExecuteAll(node, sts), h)
    ensures Highest(ExecuteAll(node, sts), h) <==> forall k: nat | k < |sts| :: !OvertakenAt(node, sts, k, h)
  {
    var front := sts[..|sts| - 1];
    RaceAlways(node, front);
    OvertakenShift(node, sts, h);
    if h in ExecuteAll(node, front).epochs {
      HighestStep(node, ExecuteAll(node, front), sts[|sts| - 1], h);
      LastWinnerHighest(node, front, h);
    } else {
      FirstBumpIsHighest(node, ExecuteAll(node, front), sts[|sts| - 1], h);
      NotYetOvertaken(node, front, h);
    }
  }

  /** The lease's holder, once told its epoch, has the highest one if and only if no claim that
      won the lease before it bumped after it. */
  lemma HolderIsHighestExactly(node: Claim -> Node, sts: seq<Statement>, h: Claim)
    requires ExecuteAll(node, sts).lease == Some(h) && h in ExecuteAll(node, sts).epochs
    ensures Highest(ExecuteAll(node, sts), h) <==> forall k: nat | k < |sts| :: !OvertakenAt(node, sts, k, h)
  {
    RaceAlways(node, sts);
    LastWinnerHighest(node, sts, h);
  }

  // ---- What a reply says --------------------------------------------------------------------

  /** The claim is told, or about to be told, that it acquired the lease, by a reply that names another node. */
  predicate Misnamed(node: Claim -> Node, r: Race, c: Claim) {
    && c in r.stages
    && match r.stages[c]
       case Saw(inserted, holder) => inserted && holder != node(c)
       case Told(reply) => reply.acquired && reply.holder != node(c)
       case _ => false
  }

  /** Its own row is gone, and another node's is there, when it reads the holder. */
  predicate Misses(node: Claim -> Node, r: Race, st: Statement, c: Claim) {
    && st == SelectHolder(c) && At(r, c, Tried(true))
    && r.lease.Some? && node(r.lease.value) != node(c)
  }

  ghost predicate MissesAt(node: Claim -> Node, sts: seq<Statement>, k: nat, c: Claim)
    requires k < |sts|
  {
    Misses(node, ExecuteAll(node, sts[..k]), sts[k], c)
  }

  lemma MisnamedStep(node: Claim -> Node, r: Race, st: Statement, c: Claim)
    ensures Misnamed(node, Execute(node, r, st), c) <==> Misnamed(node, r, c) || Misses(node, r, st, c)
  {
  }

  /**
   A claim is answered `acquired` with another node's name if and only if, between its insert
   and its read of the holder, its row was freed and a claim of that other node put its own there.
   */
  lemma {:induction false} AcquiredNamesAnotherExactly(node: Claim -> Node, sts: seq<Statement>, c: Claim)
    ensures Misnamed(node, ExecuteAll(node, sts), c) <==> exists k: nat :: k < |sts| && MissesAt(node, sts, k, c)
  {
    if sts != [] {
      var front := sts[..|sts| - 1];
      var r, st := ExecuteAll(node, front), sts[|sts| - 1];
      AcquiredNamesAnotherExactly(node, front, c);
      MisnamedStep(node, r, st, c);
      forall k: nat | k < |front| ensures MissesAt(node, front, k, c) == MissesAt(node, sts, k, c) {
        assert front[..k] == sts[..k];
      }
      assert MissesAt(node, sts, |front|, c) == Misses(node, r, st, c);
    }
  }

  /** The node it is told of is that of a claim that won the lease after it. */
  lemma MissedByLaterWinner(node: Claim -> Node, sts: seq<Statement>, k: nat, c: Claim)
    requires k < |sts| && MissesAt(node, sts, k, c)
    ensures var r := ExecuteAll(node, sts[..k]); c in r.wins && LastWinner(r, r.lease.value) && r.lease.value != c
  {
    RaceAlways(node, sts[..k]);
    assert Inserted(ExecuteAll(node, sts[..k]), c);
  }

  /** The row is gone when the claim comes to read its holder. */
  predicate FindsNone(r: Race, st: Statement, c: Claim) {
    st == SelectHolder(c) && c in r.stages && r.stages[c].Tried? && r.lease.None?
  }

  ghost predicate FindsNoneAt(node: Claim -> Node, sts: seq<Statement>, k: nat, c: Claim)
    requires k < |sts|
  {
    FindsNone(ExecuteAll(node, sts[..k]), sts[k], c)
  }

  lemma RacedStep(node: Claim -> Node, r: Race, st: Statement, c: Claim)
    ensures At(Execute(node, r, st), c, Raced) <==> At(r, c, Raced) || FindsNone(r, st, c)
  {
  }

  /** A claim fails as raced if and only if the row, its own or another's, was freed before it read the
      holder; it then never bumps, though it may have inserted. */
  lemma {:induction false} RacedExactly(node: Claim -> Node, sts: seq<Statement>, c: Claim)
    ensures At(ExecuteAll(node, sts), c, Raced) <==> exists k: nat :: k < |sts| && FindsNoneAt(node, sts, k, c)
    ensures At(ExecuteAll(node, sts), c, Raced) ==> c !in ExecuteAll(node, sts).epochs
  {
    RaceAlways(node, sts);
    if sts != [] {
      var front := sts[..|sts| - 1];
      var r, st := ExecuteAll(node, front), sts[|sts| - 1];
      RacedExactly(node, front, c);
      RacedStep(node, r, st, c);
      forall k: nat | k < |front| ensures FindsNoneAt(node, front, k, c) == FindsNoneAt(node, sts, k, c) {
        assert front[..k] == sts[..k];
      }
      assert FindsNoneAt(node, sts, |front|, c) == FindsNone(r, st, c);
    }
  }

  /** A claim answered `acquired` under an epoch. */
  predicate Holds(r: Race, c: Claim, epoch: nat) {
    c in r.stages && r.stages[c].Told? && r.stages[c].reply.acquired && r.stages[c].reply.epoch == epoch
  }

  /** Claims of different nodes are never answered `acquired` under the same epoch. */
  ghost predicate Separate(node: Claim -> Node, r: Race) {
    forall a, b, epoch: nat | Holds(r, a, epoch) && Holds(r, b, epoch) :: node(a) == node(b)
  }

  /** The claim whose bump made the epoch what it is. */
  predicate LastBump(r: Race, b: Claim) {
    b in r.epochs && r.epochs[b] == r.epoch
  }

  /** A reply is about to be given for a claim the holder's node makes again. */
  predicate Rereads(node: Claim -> Node, r: Race, st: Statement) {
    st.ReadEpoch? && At(r, st.c, Saw(false, node(st.c)))
  }

  /**
   A re-claim reads the epoch while the last bump was another node's, its own node having
   inserted the lease and not bumped yet; or, before any bump, a re-claim or the first bump
   follows another node's re-claim that took the default.
   */
  ghost predicate Shares(node: Claim -> Node, r: Race, st: Statement) {
    if r.epoch > 0 then
      Rereads(node, r, st) && exists b :: LastBump(r, b) && node(b) != node(st.c)
    else
      && (Rereads(node, r, st) || (st.BumpEpoch? && Owing(r, st.c)))
      && exists b :: b in r.defaulted && node(b) != node(st.c)
  }

  ghost predicate SharesAt(node: Claim -> Node, sts: seq<Statement>, k: nat)
    requires k < |sts|
  {
    Shares(node, ExecuteAll(node, sts[..k]), sts[k])
  }

  /** Where every acquired reply got its epoch from. */
  ghost predicate RepliesInv(r: Race) {
    && (forall c, epoch: nat | Holds(r, c, epoch) :: epoch <= Current(r))
    && (forall c | c in r.epochs :: Holds(r, c, r.epochs[c]))
    && (r.epoch > 0 ==> exists b :: LastBump(r, b))
    && (forall c | c in r.defaulted :: Holds(r, c, 1))
    && (r.epoch == 0 ==> forall c, epoch: nat | Holds(r, c, epoch) :: epoch == 1 && c in r.defaulted)
  }

  /** The reply a statement adds, if it adds an acquired one. */
  lemma HoldsStep(node: Claim -> Node, r: Race, st: Statement, c: Claim, epoch: nat)
    ensures Holds(Execute(node, r, st), c, epoch) <==>
            || Holds(r, c, epoch)
            || (st == BumpEpoch(c) && Owing(r, c) && epoch == r.epoch + 1)
            || (st.ReadEpoch? && st.c == c && Rereads(node, r, st) && epoch == Current(r))
  {
  }

  lemma RepliesStep(node: Claim -> Node, r: Race, st: Statement)
    requires RepliesInv(r)
    ensures RepliesInv(Execute(node, r, st))
  {
    var r' := Execute(node, r, st);
    forall c, epoch: nat | Holds(r', c, epoch)
      ensures epoch <= Current(r') && (r'.epoch == 0 ==> epoch == 1 && c in r'.defaulted)
    {
      HoldsStep(node, r, st, c, epoch);
    }
    forall c | c in r'.epochs ensures Holds(r', c, r'.epochs[c]) {
      HoldsStep(node, r, st, c, r'.epochs[c]);
    }
    forall c | c in r'.defaulted ensures Holds(r', c, 1) {
      HoldsStep(node, r, st, c, 1);
    }
    if r'.epoch > r.epoch {
      assert LastBump(r', st.c);
    } else if r'.epoch > 0 {
      var b :| LastBump(r, b);
      assert LastBump(r', b);
    }
  }

  /** The replies of `r'` are those of `r` and one more. */
  ghost predicate AddsReply(r: Race, r': Race, c: Claim, epoch: nat) {
    forall a, e: nat :: Holds(r', a, e) <==> Holds(r, a, e) || (a == c && e == epoch)
  }

  lemma SeparateAdd(node: Claim -> Node, r: Race, r': Race, c: Claim, epoch: nat)
    requires AddsReply(r, r', c, epoch)
    ensures Separate(node, r') <==>
            Separate(node, r) && !(exists b :: Holds(r, b, epoch) && node(b) != node(c))
  {
    assert Holds(r', c, epoch);
    if Separate(node, r') {
      forall b | Holds(r, b, epoch) ensures node(b) == node(c) {
        assert Holds(r', b, epoch);
      }
      forall a, b, e: nat | Holds(r, a, e) && Holds(r, b, e) ensures node(a) == node(b) {
        assert Holds(r', a, e) && Holds(r', b, e);
      }
    }
  }

  lemma SeparateSame(node: Claim -> Node, r: Race, r': Race)
    requires forall a, e: nat :: Holds(r', a, e) <==> Holds(r, a, e)
    ensures Separate(node, r') <==> Separate(node, r)
  {
  }

  /** With the replies so far apart, some claim of another node holds the current epoch exactly when
      the one that made it does, or, before any bump, when one took the default. */
  lemma HeldElsewhere(node: Claim -> Node, r: Race, c: Claim)
    requires RepliesInv(r) && Separate(node, r)
    ensures (exists b :: Holds(r, b, Current(r)) && node(b) != node(c)) <==>
            (if r.epoch > 0 then exists b :: LastBump(r, b) && node(b) != node(c)
             else exists b :: b in r.defaulted && node(b) != node(c))
  {
    if r.epoch > 0 {
      var last :| LastBump(r, last);
      assert Holds(r, last, r.epoch);
      if b :| Holds(r, b, Current(r)) && node(b) != node(c) {
        assert node(last) == node(b);
      }
    }
  }

  lemma SeparateStep(node: Claim -> Node, r: Race, st: Statement)
    requires RepliesInv(r)
    ensures Separate(node, Execute(node, r, st)) <==> Separate(node, r) && !Shares(node, r, st)
  {
    var r' := Execute(node, r, st);
    forall a, e: nat
      ensures Holds(r', a, e) <==>
              || Holds(r, a, e)
              || (st == BumpEpoch(a) && Owing(r, a) && e == r.epoch + 1)
              || (st.ReadEpoch? && st.c == a && Rereads(node, r, st) && e == Current(r))
    {
      HoldsStep(node, r, st, a, e);
    }
    if st.BumpEpoch? && Owing(r, st.c) {
      SeparateAdd(node, r, r', st.c, r.epoch + 1);
      if Separate(node, r) && r.epoch == 0 {
        HeldElsewhere(node, r, st.c);
      }
    } else if Rereads(node, r, st) {
      SeparateAdd(node, r, r', st.c, Current(r));
      if Separate(node, r) {
        HeldElsewhere(node, r, st.c);
      }
    } else {
      SeparateSame(node, r, r');
    }
  }

  lemma SharesShift(node: Claim -> Node, sts: seq<Statement>)
    requires sts != []
    ensures var front := sts[..|sts| - 1];
            (forall k: nat | k < |sts| :: !SharesAt(node, sts, k)) <==>
            (forall k: nat | k < |front| :: !SharesAt(node, front, k)) &&
            !Shares(node, ExecuteAll(node, front), sts[|sts| - 1])
  {
    var front := sts[..|sts| - 1];
    forall k: nat | k < |front| ensures SharesAt(node, front, k) == SharesAt(node, sts, k) {
      assert front[..k] == sts[..k];
    }
    assert SharesAt(node, sts, |front|) == Shares(node, ExecuteAll(node, front), sts[|sts| - 1]);
  }

  /**
   The fence tells nodes apart by epochs. Over every interleaving, claims of different nodes are
   never answered `acquired` under one epoch if and only if neither of these ever happens: a
   re-claim reads the epoch while the last bump was another node's; before any bump, a re-claim
   or the first bump follows another node's re-claim that took the default.
   */
  lemma {:induction false} SharedEpochsExactly(node: Claim -> Node, sts: seq<Statement>)
    ensures Separate(node, ExecuteAll(node, sts)) <==> forall k: nat | k < |sts| :: !SharesAt(node, sts, k)
    ensures RepliesInv(ExecuteAll(node, sts))
  {
    if sts != [] {
      var front := sts[..|sts| - 1];
      SharedEpochsExactly(node, front);
      SharesShift(node, sts);
      RepliesStep(node, ExecuteAll(node, front), sts[|sts| - 1]);
      SeparateStep(node, ExecuteAll(node, front), sts[|sts| - 1]);
    }
  }

  // ---- A claim nobody disturbs --------------------------------------------------------------

  /** Left alone, a claim on a free lease takes it under the next epoch, and a claim on a held one
      is told the holder and its epoch, acquired exactly when that is its own node. */
  lemma UndisturbedClaim(node: Claim -> Node, r: Race, c: Claim)
    requires c !in r.stages
    ensures r.lease.None? ==>
              var r' := Execute(node, Execute(node, Execute(node, r, InsertLease(c)), SelectHolder(c)), BumpEpoch(c));
              && At(r', c, Told(Reply(node(c), true, r.epoch + 1))) && r'.lease == Some(c) && r'.epoch == r.epoch + 1
    ensures r.lease.Some? ==>
              var r' := Execute(node, Execute(node, Execute(node, r, InsertLease(c)), SelectHolder(c)), ReadEpoch(c));
              var holder := node(r.lease.value);
              && At(r', c, Told(Reply(holder, holder == node(c), Current(r))))
              && r'.lease == r.lease && r'.epoch == r.epoch
  {
  }

  // ---- The inputs ---------------------------------------------------------------------------

  /** A claimant that pauses between its statements is overtaken: it won the lease first and has the
      higher epoch, while its successor holds the lease. Both were answered `acquired`, and the
      first was told the second one's node. */
  lemma PausedClaimIsOvertaken(node: Claim -> Node)
    requires node(1) == 1 && node(2) == 2
    ensures var r := ExecuteAll(node, [] + [InsertLease(1)] + [FreeLease] + [InsertLease(2)] + [SelectHolder(1)]
                                      + [SelectHolder(2)] + [BumpEpoch(2)] + [BumpEpoch(1)]);
            && r.wins == [1, 2] && r.lease == Some(2) && r.epochs == map[2 := 1, 1 := 2]
            && At(r, 1, Told(Reply(2, true, 2))) && At(r, 2, Told(Reply(2, true, 1)))
  {
    var s1 := [] + [InsertLease(1)];
    var s2 := s1 + [FreeLease];
    var s3 := s2 + [InsertLease(2)];
    var s4 := s3 + [SelectHolder(1)];
    var s5 := s4 + [SelectHolder(2)];
    var s6 := s5 + [BumpEpoch(2)];
    ExecuteStep(node, [], InsertLease(1));
    assert ExecuteAll(node, s1) == Race(Some(1), 0, map[1 := Tried(true)], [1], map[], {});
    ExecuteStep(node, s1, FreeLease);
    ExecuteStep(node, s2, InsertLease(2));
    assert ExecuteAll(node, s3) == Race(Some(2), 0, map[1 := Tried(true), 2 := Tried(true)], [1, 2], map[], {});
    ExecuteStep(node, s3, SelectHolder(1));
    ExecuteStep(node, s4, SelectHolder(2));
    assert ExecuteAll(node, s5) == Race(Some(2), 0, map[1 := Saw(true, 2), 2 := Saw(true, 2)], [1, 2], map[], {});
    ExecuteStep(node, s5, BumpEpoch(2));
    assert ExecuteAll(node, s6)
        == Race(Some(2), 1, map[1 := Saw(true, 2), 2 := Told(Reply(2, true, 1))], [1, 2], map[2 := 1], {});
    ExecuteStep(node, s6, BumpEpoch(1));
  }

  /** Node 2's second claim reads the epoch before its first has bumped it: it is answered
      `acquired` under the epoch node 1 was granted. */
  lemma ReclaimSharesAnEpoch(node: Claim -> Node)
    requires node(1) == 1 && node(2) == 2 && node(3) == 2
    ensures var r := ExecuteAll(node, [] + [InsertLease(1)] + [SelectHolder(1)] + [BumpEpoch(1)] + [FreeLease]
                                      + [InsertLease(2)] + [InsertLease(3)] + [SelectHolder(3)] + [ReadEpoch(3)]);
            At(r, 1, Told(Reply(1, true, 1))) && At(r, 3, Told(Reply(2, true, 1)))
  {
    var s4 := [] + [InsertLease(1)] + [SelectHolder(1)] + [BumpEpoch(1)] + [FreeLease];
    var s5 := s4 + [InsertLease(2)];
    var s6 := s5 + [InsertLease(3)];
    var s7 := s6 + [SelectHolder(3)];
    var told := Told(Reply(1, true, 1));
    ClaimedAndFreed(node);
    ExecuteStep(node, s4, InsertLease(2));
    ExecuteStep(node, s5, InsertLease(3));
    assert ExecuteAll(node, s6).stages == map[1 := told, 2 := Tried(true), 3 := Tried(false)];
    ExecuteStep(node, s6, SelectHolder(3));
    assert At(ExecuteAll(node, s7), 3, Saw(false, 2)) && At(ExecuteAll(node, s7), 1, told);
    ExecuteStep(node, s7, ReadEpoch(3));
  }

  lemma ClaimedAndFreed(node: Claim -> Node)
    requires node(1) == 1
    ensures ExecuteAll(node, [] + [InsertLease(1)] + [SelectHolder(1)] + [BumpEpoch(1)] + [FreeLease])
            == Race(None, 1, map[1 := Told(Reply(1, true, 1))], [1], map[1 := 1], {})
  {
    var s1 := [] + [InsertLease(1)];
    var s2 := s1 + [SelectHolder(1)];
    var s3 := s2 + [BumpEpoch(1)];
    ExecuteStep(node, [], InsertLease(1));
    ExecuteStep(node, s1, SelectHolder(1));
    assert ExecuteAll(node, s2) == Race(Some(1), 0, map[1 := Saw(true, 1)], [1], map[], {});
    ExecuteStep(node, s2, BumpEpoch(1));
    ExecuteStep(node, s3, FreeLease);
  }
}

/** Four runs in which a caller is answered and the next worker knows nothing of it. */
module FailoverLosses {
  import opened ObjectContent
  import opened ObjectStore
  import opened Registry
  import opened Hosting
  import opened HostingRuns
  import opened Failover
  import O = ObjectRuns
  import C = Cluster

  function Create(key: string): seq<Op> {
    [CreateTable("t"), Put("t", key, "v")]
  }

  function Add(key: string): seq<Op> {
    [Put("t", key, "v")]
  }

  function Rows(c: Content): map<string, string> {
    if "t" in c.tables then c.tables["t"] else map[]
  }

  lemma CreateRuns(c: Content, key: string)
    ensures ChangesAll(c, Create(key)) == 1 && Serials(Create(key)) == {}
    ensures ApplyAll(c, Create(key)).tables.Keys == c.tables.Keys + {"t"}
    ensures Rows(ApplyAll(c, Create(key))) == Rows(c)[key := "v"]
  {
    assert Create(key)[..1] == [CreateTable("t")] && [CreateTable("t")][..0] == [];
    assert ApplyAll(c, Create(key)[..1]) == ApplyOp(ApplyAll(c, []), CreateTable("t"));
    assert ChangesAll(c, Create(key)[..1]) == 0;
  }

  lemma AddRuns(c: Content, key: string)
    requires "t" in c.tables
    ensures ChangesAll(c, Add(key)) == 1 && Serials(Add(key)) == {}
    ensures Rows(ApplyAll(c, Add(key))) == Rows(c)[key := "v"] && "t" in ApplyAll(c, Add(key)).tables
  {
    assert Add(key)[..0] == [];
  }

  predicate Told(s: State, w: C.Worker, id: nat) {
    w in s.hosts && O.Returned(id, true) in s.hosts[w].run.answers
  }

  /** One worker over nothing, under the first epoch. */
  ghost predicate OneBlank(o: ObjectId, s: State) {
    && s.hosts.Keys == {1} && s.cluster.store == Store(map[], map[]) && s.cluster.reg.epochs == map[o := 1]
    && var h := s.hosts[1];
       && h.run.phase.Waiting? && h.run.mailbox == [] && h.run.next == 0 && h.task.epoch == 1
       && h.run.home.db.committed == BLANK
  }

  lemma FirstHost(ttl: nat, o: ObjectId)
    requires ttl > 0
    ensures var s := From(ttl, o, INIT, Takeover(ttl, 1)); OneBlank(o, s) && Inv(o, s) && ClockInv(s.cluster)
    ensures (2, o) !in From(ttl, o, INIT, Takeover(ttl, 1)).cluster.files
  {
    InvAlways(ttl, o, []);
    TakeoverRuns(ttl, o, INIT, 1);
  }

  /** Where three stretches lead. */
  function Three(ttl: nat, o: ObjectId, a: seq<Step>, b: seq<Step>, c: seq<Step>): State {
    From(ttl, o, From(ttl, o, From(ttl, o, INIT, a), b), c)
  }

  lemma FromParts(ttl: nat, o: ObjectId, a: seq<Step>, b: seq<Step>, c: seq<Step>, d: seq<Step>, e: seq<Step>)
    ensures var s3 := Three(ttl, o, a, b, c);
            && After(ttl, o, a + b + c + d) == From(ttl, o, s3, d)
            && After(ttl, o, a + b + c + d + e) == From(ttl, o, From(ttl, o, s3, d), e)
  {
    FromConcat(ttl, o, INIT, a, b);
    FromConcat(ttl, o, INIT, a + b, c);
    FromConcat(ttl, o, INIT, a + b + c, d);
    FromConcat(ttl, o, INIT, a + b + c + d, e);
  }

  // ---- The fence ----------------------------------------------------------------------------

  function FencedRun(ttl: nat): seq<Step> {
    Takeover(ttl, 1) + Takeover(ttl, 2) + Answered(2, Create("a"), true) + Answered(1, Create("b"), true)
  }

  /** Two workers over nothing, each with its own epoch, nothing shipped. */
  ghost predicate TwoBlanks(o: ObjectId, s: State) {
    && s.hosts.Keys == {1, 2} && s.cluster.store == Store(map[], map[])
    && (forall w | w in s.hosts ::
          && s.hosts[w].run.phase.Waiting? && s.hosts[w].run.mailbox == [] && s.hosts[w].run.next == 0
          && s.hosts[w].task.epoch == w && s.hosts[w].run.home.db.committed == BLANK)
  }

  /** The successor has shipped, and the ex-holder is idle. */
  ghost predicate Overtaken(o: ObjectId, s: State) {
    && 1 in s.hosts && s.hosts[1].run.phase.Waiting? && s.hosts[1].run.mailbox == []
    && s.hosts[1].run.next == 0 && s.hosts[1].task.epoch == 1
    && Rows(Held(s.cluster, o)) == map["a" := "v"] && Fenced(s.cluster.store, o, 1)
  }

  lemma SecondBlank(o: ObjectId, s: State, s': State)
    requires OneBlank(o, s) && TakenOver(o, s, s', 2) && (2, o) !in s.cluster.files
    ensures TwoBlanks(o, s')
  {
  }

  lemma SuccessorShips(o: ObjectId, s: State, s': State)
    requires TwoBlanks(o, s) && CallDone(o, s, s', 2, Create("a"), true, Local(2, O.Gate))
    requires ChangesAll(BLANK, Create("a")) == 1 && Rows(ApplyAll(BLANK, Create("a"))) == map["a" := "v"]
    ensures Overtaken(o, s')
  {
  }

  lemma TwoBlanksRun(ttl: nat, o: ObjectId)
    requires ttl > 0
    ensures var s2 := From(ttl, o, From(ttl, o, INIT, Takeover(ttl, 1)), Takeover(ttl, 2));
            TwoBlanks(o, s2) && Inv(o, s2)
  {
    var s1 := From(ttl, o, INIT, Takeover(ttl, 1));
    FirstHost(ttl, o);
    TakeoverRuns(ttl, o, s1, 2);
    SecondBlank(o, s1, From(ttl, o, s1, Takeover(ttl, 2)));
  }

  lemma FencedStates(ttl: nat, o: ObjectId)
    requires ttl > 0
    ensures var s3 := Three(ttl, o, Takeover(ttl, 1), Takeover(ttl, 2), Answered(2, Create("a"), true));
            Overtaken(o, s3) && Inv(o, s3)
  {
    var s2 := From(ttl, o, From(ttl, o, INIT, Takeover(ttl, 1)), Takeover(ttl, 2));
    TwoBlanksRun(ttl, o);
    CreateRuns(BLANK, "a");
    AnsweredRuns(ttl, o, s2, 2, Create("a"), true);
    SuccessorShips(o, s2, From(ttl, o, s2, Answered(2, Create("a"), true)));
  }

  /** An ex-holder answers a call whose ship the fence refused: the caller is told Ok, the file has
      the row, and the store never will. */
  lemma FencedAnswerIsLost(ttl: nat, o: ObjectId)
    requires ttl > 0
    ensures var s := After(ttl, o, FencedRun(ttl));
            && Told(s, 1, 0) && "b" in Rows(s.hosts[1].run.home.db.committed)
            && Rows(Held(s.cluster, o)) == map["a" := "v"]
  {
    var s3 := Three(ttl, o, Takeover(ttl, 1), Takeover(ttl, 2), Answered(2, Create("a"), true));
    FencedStates(ttl, o);
    CreateRuns(s3.hosts[1].run.home.db.committed, "b");
    AnsweredRuns(ttl, o, s3, 1, Create("b"), true);
    FromParts(ttl, o, Takeover(ttl, 1), Takeover(ttl, 2), Answered(2, Create("a"), true),
              Answered(1, Create("b"), true), []);
  }

  // ---- The successor --------------------------------------------------------------------------

  /** Worker 1 ships, worker 2 takes over and restores, worker 1 ships again. */
  function LateRun(ttl: nat): seq<Step> {
    Takeover(ttl, 1) + Answered(1, Create("a"), true) + Takeover(ttl, 2) + Answered(1, Add("b"), true)
  }

  /** One worker, one row, shipped. */
  ghost predicate OneWrite(o: ObjectId, s: State) {
    && s.hosts.Keys == {1} && s.cluster.reg.epochs == map[o := 1]
    && Held(s.cluster, o) == ApplyAll(BLANK, Create("a")) && !Fenced(s.cluster.store, o, 1)
    && var h := s.hosts[1];
       && h.run.phase.Waiting? && h.run.mailbox == [] && h.run.next == 1 && h.task.epoch == 1
       && h.run.home.db.committed == ApplyAll(BLANK, Create("a"))
  }

  /** Two workers, each with that row and its own epoch. */
  ghost predicate TwoHosts(o: ObjectId, s: State) {
    && s.hosts.Keys == {1, 2} && !Fenced(s.cluster.store, o, 1) && s.hosts[1].run.next == 1
    && (forall w | w in s.hosts ::
          && s.hosts[w].run.phase.Waiting? && s.hosts[w].run.mailbox == [] && s.hosts[w].task.epoch == w
          && s.hosts[w].run.home.db.committed == ApplyAll(BLANK, Create("a")))
  }

  lemma FirstWrite(o: ObjectId, s: State, s': State)
    requires OneBlank(o, s) && CallDone(o, s, s', 1, Create("a"), true, Local(1, O.Gate))
    requires ChangesAll(BLANK, Create("a")) == 1
    ensures OneWrite(o, s')
  {
  }

  lemma SecondHost(o: ObjectId, s: State, s': State)
    requires OneWrite(o, s) && TakenOver(o, s, s', 2) && (2, o) !in s.cluster.files
    ensures TwoHosts(o, s')
  {
  }

  lemma FirstWriteRuns(ttl: nat, o: ObjectId)
    requires ttl > 0
    ensures var s2 := From(ttl, o, From(ttl, o, INIT, Takeover(ttl, 1)), Answered(1, Create("a"), true));
            OneWrite(o, s2) && Inv(o, s2) && ClockInv(s2.cluster)
  {
    var s1 := From(ttl, o, INIT, Takeover(ttl, 1));
    FirstHost(ttl, o);
    CreateRuns(BLANK, "a");
    AnsweredRuns(ttl, o, s1, 1, Create("a"), true);
    FirstWrite(o, s1, From(ttl, o, s1, Answered(1, Create("a"), true)));
  }

  lemma LateStates(ttl: nat, o: ObjectId)
    requires ttl > 0
    ensures var s3 := Three(ttl, o, Takeover(ttl, 1), Answered(1, Create("a"), true), Takeover(ttl, 2));
            TwoHosts(o, s3) && Inv(o, s3)
  {
    FirstWriteRuns(ttl, o);
    SecondHostRuns(ttl, o, From(ttl, o, From(ttl, o, INIT, Takeover(ttl, 1)), Answered(1, Create("a"), true)));
  }

  lemma SecondHostRuns(ttl: nat, o: ObjectId, s: State)
    requires ttl > 0 && OneWrite(o, s) && Inv(o, s) && ClockInv(s.cluster)
    ensures var s' := From(ttl, o, s, Takeover(ttl, 2)); TwoHosts(o, s') && Inv(o, s')
  {
    TakeoverRuns(ttl, o, s, 2);
    SecondHost(o, s, From(ttl, o, s, Takeover(ttl, 2)));
  }

  /** The ex-holder's late row is stored; the successor, with the older file, is idle under epoch 2. */
  ghost predicate LateShipped(o: ObjectId, s: State) {
    && Told(s, 1, 1) && Held(s.cluster, o) == ApplyAll(ApplyAll(BLANK, Create("a")), Add("b"))
    && 2 in s.hosts && s.hosts[2].run.phase.Waiting? && s.hosts[2].run.mailbox == [] && s.hosts[2].task.epoch == 2
    && !Fenced(s.cluster.store, o, 2) && s.hosts[2].run.home.db.committed == ApplyAll(BLANK, Create("a"))
  }

  lemma LateShip(o: ObjectId, s: State, s': State)
    requires TwoHosts(o, s) && CallDone(o, s, s', 1, Add("b"), true, Local(1, O.Gate))
    requires ChangesAll(ApplyAll(BLANK, Create("a")), Add("b")) == 1
    ensures LateShipped(o, s')
  {
    assert s'.hosts[2] == s.hosts[2];
    assert s'.hosts[1].run.answers[|s.hosts[1].run.answers|] == O.Returned(1, true);
  }

  lemma LateRuns(ttl: nat, o: ObjectId)
    requires ttl > 0
    ensures var s := After(ttl, o, LateRun(ttl)); LateShipped(o, s) && Inv(o, s)
  {
    var s3 := Three(ttl, o, Takeover(ttl, 1), Answered(1, Create("a"), true), Takeover(ttl, 2));
    LateStates(ttl, o);
    CreateRuns(BLANK, "a");
    AddRuns(ApplyAll(BLANK, Create("a")), "b");
    AnsweredRuns(ttl, o, s3, 1, Add("b"), true);
    LateShip(o, s3, From(ttl, o, s3, Answered(1, Add("b"), true)));
    FromParts(ttl, o, Takeover(ttl, 1), Answered(1, Create("a"), true), Takeover(ttl, 2),
              Answered(1, Add("b"), true), []);
  }

  lemma SuccessorOverwrites(o: ObjectId, s: State, s': State)
    requires LateShipped(o, s) && CallDone(o, s, s', 2, Add("c"), true, Local(2, O.Gate))
    requires ChangesAll(ApplyAll(BLANK, Create("a")), Add("c")) == 1
    ensures Held(s'.cluster, o) == ApplyAll(ApplyAll(BLANK, Create("a")), Add("c"))
  {
  }

  /** The late ship is under the older epoch but nothing newer has shipped yet, so it lands and its
      caller is told Ok; then the successor, which restored before it, ships over it. */
  lemma SuccessorErasesAnswer(ttl: nat, o: ObjectId)
    requires ttl > 0
    ensures var s := After(ttl, o, LateRun(ttl));
            var t := After(ttl, o, LateRun(ttl) + Answered(2, Add("c"), true));
            && Told(s, 1, 1) && Rows(Held(s.cluster, o)) == map["a" := "v", "b" := "v"]
            && Rows(Held(t.cluster, o)) == map["a" := "v", "c" := "v"]
  {
    var s := After(ttl, o, LateRun(ttl));
    LateRuns(ttl, o);
    CreateRuns(BLANK, "a");
    AddRuns(ApplyAll(BLANK, Create("a")), "b");
    AddRuns(ApplyAll(BLANK, Create("a")), "c");
    AnsweredRuns(ttl, o, s, 2, Add("c"), true);
    FromConcat(ttl, o, INIT, LateRun(ttl), Answered(2, Add("c"), true));
    SuccessorOverwrites(o, s, From(ttl, o, s, Answered(2, Add("c"), true)));
  }

  // ---- The gate that had nothing to count -------------------------------------------------------

  /** A process dies between its commit and its gate, comes back, and serves a read. */
  function UnshippedRun(ttl: nat): seq<Step> {
    Takeover(ttl, 1) + Locals(1, Serving(Create("a"), true)) + [Local(1, O.Crash)] +
    Takeover(ttl, 1) + Answered(1, [], true)
  }

  /** Worker 1 has one row, committed and not shipped. */
  ghost predicate Unshipped(o: ObjectId, s: State) {
    && 1 in s.hosts && s.hosts[1].run.next == 1 && s.cluster.store == Store(map[], map[])
    && s.hosts[1].run.home.db.committed == ApplyAll(BLANK, Create("a"))
  }

  lemma UnshippedServed(ttl: nat, o: ObjectId)
    requires ttl > 0
    ensures var s2 := From(ttl, o, From(ttl, o, INIT, Takeover(ttl, 1)), Locals(1, Serving(Create("a"), true)));
            Unshipped(o, s2) && Resident(s2, 1) && Inv(o, s2) && ClockInv(s2.cluster)
  {
    var s1 := From(ttl, o, INIT, Takeover(ttl, 1));
    FirstHost(ttl, o);
    CreateRuns(BLANK, "a");
    ReachesGate(ttl, o, s1, 1, Create("a"), true);
    ServedUnshipped(o, s1, From(ttl, o, s1, Locals(1, Serving(Create("a"), true))));
  }

  lemma ServedUnshipped(o: ObjectId, s: State, s': State)
    requires OneBlank(o, s) && ClockInv(s.cluster) && 1 in s'.hosts && OnlyRan(o, s, s', 1, s'.hosts[1].run)
    requires AtGate(s.hosts[1].run, s'.hosts[1].run, Create("a"), true)
    ensures Unshipped(o, s') && Resident(s', 1) && ClockInv(s'.cluster)
  {
  }

  lemma UnshippedStates(ttl: nat, o: ObjectId)
    requires ttl > 0
    ensures var s3 := Three(ttl, o, Takeover(ttl, 1), Locals(1, Serving(Create("a"), true)), [Local(1, O.Crash)]);
            && Unshipped(o, s3) && s3.hosts[1].run.phase.Down? && s3.hosts[1].run.mailbox == []
            && Inv(o, s3) && ClockInv(s3.cluster)
  {
    var s2 := From(ttl, o, From(ttl, o, INIT, Takeover(ttl, 1)), Locals(1, Serving(Create("a"), true)));
    UnshippedServed(ttl, o);
    CrashDowns(ttl, o, s2, 1);
    StepKeeps(ttl, o, s2, Local(1, O.Crash));
    FromOne(ttl, o, s2, Local(1, O.Crash));
  }

  /** The new connection counts from zero and so does the mark: the read is answered from a row
      that was never shipped, and nothing ships it until the next write. */
  lemma UnshippedCommitIsAnswered(ttl: nat, o: ObjectId)
    requires ttl > 0
    ensures var s := After(ttl, o, UnshippedRun(ttl));
            && Told(s, 1, 1) && Rows(s.hosts[1].run.home.db.committed) == map["a" := "v"]
            && Held(s.cluster, o) == BLANK && s.cluster.store == Store(map[], map[])
  {
    var s3 := Three(ttl, o, Takeover(ttl, 1), Locals(1, Serving(Create("a"), true)), [Local(1, O.Crash)]);
    var s4 := From(ttl, o, s3, Takeover(ttl, 1));
    UnshippedStates(ttl, o);
    CreateRuns(BLANK, "a");
    TakeoverRuns(ttl, o, s3, 1);
    assert HostInv(o, s3, 1);
    AnsweredRuns(ttl, o, s4, 1, [], true);
    FromParts(ttl, o, Takeover(ttl, 1), Locals(1, Serving(Create("a"), true)), [Local(1, O.Crash)], Takeover(ttl, 1),
              Answered(1, [], true));
  }

  // ---- The upload that fails ----------------------------------------------------------------------

  /** A call is served, and its upload fails before its snapshot, or before its manifest. */
  function FailedRun(ttl: nat, torn: bool): seq<Step> {
    Takeover(ttl, 1) + AnsweredBy(1, Create("a"), true, GateFails(1, torn))
  }

  /** A failed upload is only logged, and the mark has moved past it: the caller is told Ok, a
      restore finds nothing, and nothing ships the row until the next write. */
  lemma FailedUploadIsAnswered(ttl: nat, o: ObjectId, torn: bool)
    requires ttl > 0
    ensures var s := After(ttl, o, FailedRun(ttl, torn));
            && Told(s, 1, 0) && Rows(s.hosts[1].run.home.db.committed) == map["a" := "v"]
            && Held(s.cluster, o) == BLANK && s.cluster.store.manifests == map[]
  {
    var s1 := From(ttl, o, INIT, Takeover(ttl, 1));
    FirstHost(ttl, o);
    CreateRuns(BLANK, "a");
    AnsweredByRuns(ttl, o, s1, 1, Create("a"), true, GateFails(1, torn));
    FromConcat(ttl, o, INIT, Takeover(ttl, 1), AnsweredBy(1, Create("a"), true, GateFails(1, torn)));
  }
}

/**
 Stretches of a run, each as one lemma: a call served from its arrival to its answer, and a
 worker taking an object over from nodes that have all aged out.
 */
module HostingRuns {
  import opened ObjectContent
  import opened ObjectStorage
  import opened ObjectHome
  import opened ObjectStore
  import opened Registry
  import opened Hosting
  import O = ObjectRuns
  import C = Cluster
  import Fence
  import ObjectCalls

  // ---- One call ------------------------------------------------------------------------

  predicate Ordinary(step: O.Step) {
    step.Send? || step.Pop? || step.Begin? || step.Run? || step.Settle? || step.Flush? || step.Reply?
  }

  function Locals(w: C.Worker, steps: seq<O.Step>): (r: seq<Step>)
    ensures |r| == |steps| && forall i | 0 <= i < |r| :: r[i] == Local(w, steps[i])
  {
    seq(|steps|, i requires 0 <= i < |steps| => Local(w, steps[i]))
  }

  /** Ordinary steps of one task touch its own run and its own file. */
  ghost predicate OnlyRan(o: ObjectId, s: State, s': State, w: C.Worker, run: O.State)
    requires w in s.hosts
  {
    && w in s'.hosts && s'.hosts == s.hosts[w := s'.hosts[w]]
    && s'.hosts[w] == s.hosts[w].(trace := s'.hosts[w].trace, run := run)
    && s' == s.(cluster := s'.cluster, hosts := s'.hosts)
    && s'.cluster == s.cluster.(files := s'.cluster.files)
  }

  lemma OrdinaryStays(r: O.State, step: O.Step)
    requires Ordinary(step) || step.Gate?
    ensures O.Apply(PLACED, r, step).phase.Down? ==> O.Apply(PLACED, r, step) == r || r.phase.Down?
  {
  }

  lemma OrdinaryHostStep(ttl: nat, o: ObjectId, s: State, w: C.Worker, step: O.Step)
    requires w in s.hosts && HostInv(o, s, w) && (Ordinary(step) || (step.Gate? && !GateRuns(s.hosts[w].run)))
    ensures OnlyRan(o, s, Apply(ttl, o, s, Local(w, step)), w, O.Apply(PLACED, s.hosts[w].run, step))
  {
    QuietMoves(ttl, o, s, w, step);
    OrdinaryStays(s.hosts[w].run, step);
    QuietShare(ttl, o, s, w, step, O.Apply(PLACED, s.hosts[w].run, step));
  }

  lemma OrdinaryStep(ttl: nat, o: ObjectId, s: State, w: C.Worker, step: O.Step)
    requires Inv(o, s) && w in s.hosts && (Ordinary(step) || (step.Gate? && !GateRuns(s.hosts[w].run)))
    ensures OnlyRan(o, s, Apply(ttl, o, s, Local(w, step)), w, O.Apply(PLACED, s.hosts[w].run, step))
  {
    OrdinaryHostStep(ttl, o, s, w, step);
  }

  lemma RanTwice(o: ObjectId, s: State, t: State, s': State, w: C.Worker, first: O.State, run: O.State)
    requires w in s.hosts && OnlyRan(o, s, t, w, first) && OnlyRan(o, t, s', w, run)
    ensures OnlyRan(o, s, s', w, run)
  {
  }

  lemma LocalsStep(ttl: nat, o: ObjectId, s: State, w: C.Worker, steps: seq<O.Step>, step: O.Step)
    ensures From(ttl, o, s, Locals(w, steps + [step]))
            == Apply(ttl, o, From(ttl, o, s, Locals(w, steps)), Local(w, step))
  {
    assert Locals(w, steps + [step])[..|steps|] == Locals(w, steps);
  }

  ghost predicate LocalsOnlyRan(ttl: nat, o: ObjectId, s: State, w: C.Worker, steps: seq<O.Step>)
    requires w in s.hosts
  {
    var t := From(ttl, o, s, Locals(w, steps));
    OnlyRan(o, s, t, w, O.From(PLACED, s.hosts[w].run, steps)) && HostInv(o, t, w)
  }

  lemma LocalsOnlyRanFirst(ttl: nat, o: ObjectId, s: State, w: C.Worker)
    requires w in s.hosts && HostInv(o, s, w)
    ensures LocalsOnlyRan(ttl, o, s, w, [])
  {
    assert s.hosts[w := s.hosts[w]] == s.hosts;
  }

  lemma LocalsExtend(ttl: nat, o: ObjectId, s: State, t: State, w: C.Worker, run: O.State, step: O.Step)
    requires w in s.hosts && w in t.hosts && HostInv(o, t, w) && OnlyRan(o, s, t, w, run) && Ordinary(step)
    ensures var t' := Apply(ttl, o, t, Local(w, step));
            OnlyRan(o, s, t', w, O.Apply(PLACED, run, step)) && HostInv(o, t', w)
  {
    var t' := Apply(ttl, o, t, Local(w, step));
    OrdinaryHostStep(ttl, o, t, w, step);
    RanTwice(o, s, t, t', w, run, O.Apply(PLACED, run, step));
    QuietShape(ttl, o, t, w, step);
    SteppedHost(o, t, t', w, t.hosts[w].run.home.shipped);
  }

  lemma LocalsOnlyRanMore(ttl: nat, o: ObjectId, s: State, w: C.Worker, front: seq<O.Step>, step: O.Step)
    requires w in s.hosts && LocalsOnlyRan(ttl, o, s, w, front) && Ordinary(step)
    ensures LocalsOnlyRan(ttl, o, s, w, front + [step])
  {
    LocalsExtend(ttl, o, s, From(ttl, o, s, Locals(w, front)), w, O.From(PLACED, s.hosts[w].run, front), step);
    LocalsStep(ttl, o, s, w, front, step);
    O.FromStep(PLACED, s.hosts[w].run, front, step);
  }

  lemma {:induction false} LocalsRun(ttl: nat, o: ObjectId, s: State, w: C.Worker, steps: seq<O.Step>)
    requires w in s.hosts && HostInv(o, s, w) && forall i | 0 <= i < |steps| :: Ordinary(steps[i])
    ensures LocalsOnlyRan(ttl, o, s, w, steps)
  {
    if steps == [] {
      LocalsOnlyRanFirst(ttl, o, s, w);
    } else {
      var front, step := steps[..|steps| - 1], steps[|steps| - 1];
      assert steps == front + [step];
      LocalsRun(ttl, o, s, w, front);
      LocalsOnlyRanMore(ttl, o, s, w, front, step);
    }
  }

  /** A call from its arrival to the checkpoint. */
  function Serving(ops: seq<Op>, ok: bool): seq<O.Step> {
    [O.Send] + [O.Pop(ops, ok)] + O.Body(|ops|) + [O.Settle] + [O.Flush]
  }

  lemma {:induction false} BodyIsOrdinary(n: nat)
    ensures forall i | 0 <= i < |O.Body(n)| :: Ordinary(O.Body(n)[i])
  {
    if n > 0 {
      BodyIsOrdinary(n - 1);
    }
  }

  lemma ServingIsOrdinary(ops: seq<Op>, ok: bool)
    ensures forall i | 0 <= i < |Serving(ops, ok)| :: Ordinary(Serving(ops, ok)[i])
  {
    BodyIsOrdinary(|ops|);
  }

  lemma {:induction false} OFromConcat(r: O.State, a: seq<O.Step>, b: seq<O.Step>)
    ensures O.From(PLACED, r, a + b) == O.From(PLACED, O.From(PLACED, r, a), b)
  {
    if b == [] {
      assert a + b == a;
    } else {
      assert (a + b)[..|a + b| - 1] == a + b[..|b| - 1];
      OFromConcat(r, a, b[..|b| - 1]);
    }
  }

  lemma BodyStepKeeps(r: O.State, step: O.Step)
    requires step.Begin? || step.Run?
    ensures var t := O.Apply(PLACED, r, step);
            t.mailbox == r.mailbox && t.next == r.next && t.answers == r.answers
  {
  }

  /** The body's steps leave the queue and the answers alone. */
  lemma {:induction false} BodyKeeps(r: O.State, n: nat)
    ensures var t := O.From(PLACED, r, O.Body(n));
            t.mailbox == r.mailbox && t.next == r.next && t.answers == r.answers
  {
    if n == 0 {
      O.FromStep(PLACED, r, [], O.Begin);
      assert [] + [O.Begin] == [O.Begin];
      BodyStepKeeps(r, O.Begin);
    } else {
      BodyKeeps(r, n - 1);
      O.FromStep(PLACED, r, O.Body(n - 1), O.Run);
      BodyStepKeeps(O.From(PLACED, r, O.Body(n - 1)), O.Run);
    }
  }

  lemma PopRuns(r: O.State, ops: seq<Op>, ok: bool)
    requires r.phase.Waiting? && r.mailbox == [] && Serials(ops) == {}
    ensures O.From(PLACED, r, [O.Send] + [O.Pop(ops, ok)])
            == r.(next := r.next + 1, popped := r.popped + [r.next], phase := O.Ready(O.Work(O.Call(r.next), ops, ok)))
  {
    O.FromStep(PLACED, r, [], O.Send);
    O.FromStep(PLACED, r, [O.Send], O.Pop(ops, ok));
    assert [] + [O.Send] == [O.Send];
    var sent := O.Apply(PLACED, r, O.Send);
    assert sent == r.(next := r.next + 1, mailbox := [r.next]);
    assert sent.mailbox[1..] == [];
    assert r.used + Serials(ops) == r.used;
  }

  /** Where serving one call takes an idle task `r`, just short of its gate. */
  predicate AtGate(r: O.State, t: O.State, ops: seq<Op>, ok: bool) {
    var content := ApplyAll(r.home.db.committed, Kept(ops, ok));
    && t.phase == O.Flushed(O.Work(O.Call(r.next), ops, ok))
    && t.home.db == Db(content, content, content, false, r.home.db.changes + ChangesAll(r.home.db.committed, ops))
    && t.home.mark == r.home.mark && r.home.mark == r.home.db.changes
    && t.mailbox == [] && t.next == r.next + 1 && t.answers == r.answers
  }

  lemma HeadRuns(r: O.State, ops: seq<Op>, ok: bool)
    requires O.HomeInv(PLACED, r) && r.phase.Waiting? && r.mailbox == [] && Serials(ops) == {}
    ensures var t := O.From(PLACED, r, [O.Send] + [O.Pop(ops, ok)] + O.Body(|ops|));
            && t.phase == O.Running(O.Work(O.Call(r.next), ops, ok), |ops|) && BodyDone(PLACED, r.home, t.home, ops)
            && t.mailbox == [] && t.next == r.next + 1 && t.answers == r.answers
  {
    var popped := O.From(PLACED, r, [O.Send] + [O.Pop(ops, ok)]);
    PopRuns(r, ops, ok);
    OFromConcat(r, [O.Send] + [O.Pop(ops, ok)], O.Body(|ops|));
    O.BodyRuns(PLACED, popped, |ops|);
    BodyKeeps(popped, |ops|);
    assert ops[..|ops|] == ops;
  }

  lemma ServingRuns(r: O.State, ops: seq<Op>, ok: bool)
    requires O.HomeInv(PLACED, r) && O.GateInv(r) && r.phase.Waiting? && r.mailbox == [] && Serials(ops) == {}
    ensures AtGate(r, O.From(PLACED, r, Serving(ops, ok)), ops, ok)
  {
    var head := [O.Send] + [O.Pop(ops, ok)] + O.Body(|ops|);
    HeadRuns(r, ops, ok);
    O.FromStep(PLACED, r, head, O.Settle);
    O.FromStep(PLACED, r, head + [O.Settle], O.Flush);
    ServingEnds(O.From(PLACED, r, head));
  }

  lemma ServingEnds(t: O.State)
    requires t.phase.Running? && t.phase.done == |t.phase.work.ops|
    ensures var w := t.phase.work;
            var u := O.Apply(PLACED, O.Apply(PLACED, t, O.Settle), O.Flush);
            && u.phase == O.Flushed(w) && u.home == FileFlushed(PLACED, Settled(PLACED, t.home, w.ok))
            && u.mailbox == t.mailbox && u.next == t.next && u.answers == t.answers
  {
  }

  /** A call from its arrival to its answer, whatever becomes of its upload. */
  function AnsweredBy(w: C.Worker, ops: seq<Op>, ok: bool, gate: Step): seq<Step> {
    Locals(w, Serving(ops, ok)) + [gate] + [Local(w, O.Reply)]
  }

  function Answered(w: C.Worker, ops: seq<Op>, ok: bool): seq<Step> {
    AnsweredBy(w, ops, ok, Local(w, O.Gate))
  }

  /** The upload of a call with this many changes lands. */
  predicate CallLands(o: ObjectId, s: State, epoch: nat, changes: nat, gate: Step) {
    && changes > 0 && !Fenced(s.cluster.store, o, epoch)
    && (gate.GateFails? ==> gate.torn && o in s.cluster.store.manifests)
  }

  /** The store after a gate of worker `w`, whose host was `h` and is `h'`. */
  ghost predicate StoreAfter(o: ObjectId, s: State, s': State, h: Host, h': Host, content: Content, gate: Step,
                             lands: bool)
  {
    if lands then
      && Held(s'.cluster, o) == content && s'.line == h.line + [|s.cluster.puts|] && h'.line == s'.line
      && (gate.Local? ==> o in s'.cluster.store.manifests && s'.cluster.store.manifests[o] == h.task.epoch)
    else
      && Held(s'.cluster, o) == Held(s.cluster, o) && s'.line == s.line && s'.stored == s.stored && h'.line == h.line
      && s'.cluster.store.manifests == s.cluster.store.manifests
      && (gate.Local? ==> s'.cluster.store == s.cluster.store)
  }

  /** What a call leaves: its content in the file, its verdict with the caller, and in the store
      its content or, unless its upload landed, whatever was there. */
  ghost predicate CallDone(o: ObjectId, s: State, s': State, w: C.Worker, ops: seq<Op>, ok: bool, gate: Step)
    requires w in s.hosts
  {
    var h := s.hosts[w];
    var content := ApplyAll(h.run.home.db.committed, Kept(ops, ok));
    && w in s'.hosts && s'.hosts == s.hosts[w := s'.hosts[w]]
    && s'.cluster == s.cluster.(files := s'.cluster.files, store := s'.cluster.store,
                     ships := s'.cluster.ships, puts := s'.cluster.puts)
    && var h' := s'.hosts[w];
       && h'.task == h.task && h'.run.phase.Waiting? && h'.run.mailbox == [] && h'.run.next == h.run.next + 1
       && h'.run.answers == h.run.answers + [O.Returned(h.run.next, ok)] && h'.run.home.db.committed == content
       && StoreAfter(o, s, s', h, h', content, gate,
                     CallLands(o, s, h.task.epoch, ChangesAll(h.run.home.db.committed, ops), gate))
  }

  /** A gate passed: `u` is `t` with the upload landed, or with the store as a restore sees it. */
  ghost predicate GateDone(o: ObjectId, t: State, u: State, w: C.Worker, gate: Step)
    requires w in t.hosts
  {
    var h := t.hosts[w];
    && w in u.hosts && u.hosts == t.hosts[w := u.hosts[w]]
    && u.cluster == t.cluster.(files := u.cluster.files, store := u.cluster.store,
                    ships := u.cluster.ships, puts := u.cluster.puts)
    && var h' := u.hosts[w];
       && h'.task == h.task && h'.run.home.db == h.run.home.db && h.run.phase.Flushed?
       && h'.run == h.run.(home := h'.run.home, phase := O.Released(h.run.phase.work), ddl := h'.run.ddl)
       && StoreAfter(o, t, u, h, h', h.run.home.db.main, gate, Gates(t, gate) && Lands(o, t, gate))
  }

  lemma GatePasses(r: O.State)
    requires r.phase.Flushed? && !GateRuns(r)
    ensures O.Apply(PLACED, r, O.Gate) == r.(phase := O.Released(r.phase.work))
  {
  }

  lemma RunGateDone(ttl: nat, o: ObjectId, t: State, w: C.Worker, gate: Step)
    requires Gates(t, gate) && gate.worker == w && HostInv(o, t, w)
    ensures GateDone(o, t, Apply(ttl, o, t, gate), w, gate)
  {
    HostFacts(t.hosts[w]);
    GateMoves(ttl, o, t, gate);
    GateRun(t.hosts[w].run);
    UploadShare(ttl, o, t, gate);
  }

  lemma IdleGateDone(ttl: nat, o: ObjectId, t: State, w: C.Worker)
    requires w in t.hosts && t.hosts[w].run.phase.Flushed? && !GateRuns(t.hosts[w].run) && HostInv(o, t, w)
    ensures GateDone(o, t, Apply(ttl, o, t, Local(w, O.Gate)), w, Local(w, O.Gate))
  {
    GatePasses(t.hosts[w].run);
    OrdinaryHostStep(ttl, o, t, w, O.Gate);
  }

  lemma GateStepDone(ttl: nat, o: ObjectId, t: State, w: C.Worker, gate: Step)
    requires Inv(o, t) && w in t.hosts && t.hosts[w].run.phase.Flushed?
    requires gate == Local(w, O.Gate) || (gate.GateFails? && gate.worker == w && Gates(t, gate))
    ensures GateDone(o, t, Apply(ttl, o, t, gate), w, gate)
  {
    assert HostInv(o, t, w);
    if Gates(t, gate) {
      RunGateDone(ttl, o, t, w, gate);
    } else {
      IdleGateDone(ttl, o, t, w);
    }
  }

  lemma ReplyRuns(r: O.State)
    requires r.phase.Released? && r.phase.work.cause.Call?
    ensures O.Apply(PLACED, r, O.Reply)
            == r.(phase := O.Waiting, answers := r.answers + [O.Returned(r.phase.work.cause.id, r.phase.work.ok)])
  {
  }

  lemma CallEnds(o: ObjectId, s: State, t: State, u: State, s': State, w: C.Worker, ops: seq<Op>, ok: bool, gate: Step)
    requires w in s.hosts && w in t.hosts && w in u.hosts && OnlyRan(o, s, t, w, t.hosts[w].run)
    requires w in s'.hosts && GateDone(o, t, u, w, gate) && OnlyRan(o, u, s', w, s'.hosts[w].run)
    requires gate == Local(w, O.Gate) || (gate.GateFails? && gate.worker == w)
    requires AtGate(s.hosts[w].run, t.hosts[w].run, ops, ok)
    requires s'.hosts[w].run == u.hosts[w].run.(phase := O.Waiting,
                                answers := s.hosts[w].run.answers + [O.Returned(s.hosts[w].run.next, ok)])
    ensures CallDone(o, s, s', w, ops, ok, gate)
  {
    assert (Gates(t, gate) && Lands(o, t, gate)) ==
           CallLands(o, s, s.hosts[w].task.epoch, ChangesAll(s.hosts[w].run.home.db.committed, ops), gate);
  }

  lemma AnsweredSplits(ttl: nat, o: ObjectId, s: State, w: C.Worker, ops: seq<Op>, ok: bool, gate: Step)
    ensures var t := From(ttl, o, s, Locals(w, Serving(ops, ok)));
            From(ttl, o, s, AnsweredBy(w, ops, ok, gate))
            == Apply(ttl, o, Apply(ttl, o, t, gate), Local(w, O.Reply))
  {
    var serving := Locals(w, Serving(ops, ok));
    assert AnsweredBy(w, ops, ok, gate)[..|serving| + 1] == serving + [gate];
    assert (serving + [gate])[..|serving|] == serving;
  }

  lemma ReachesBy(ttl: nat, o: ObjectId, s: State, w: C.Worker, steps: seq<O.Step>, ops: seq<Op>, ok: bool)
    requires Inv(o, s) && w in s.hosts && (forall i | 0 <= i < |steps| :: Ordinary(steps[i]))
    requires AtGate(s.hosts[w].run, O.From(PLACED, s.hosts[w].run, steps), ops, ok)
    ensures var t := From(ttl, o, s, Locals(w, steps));
            && Inv(o, t) && w in t.hosts && OnlyRan(o, s, t, w, t.hosts[w].run)
            && AtGate(s.hosts[w].run, t.hosts[w].run, ops, ok)
  {
    assert HostInv(o, s, w);
    LocalsRun(ttl, o, s, w, steps);
    InvFrom(ttl, o, s, Locals(w, steps));
  }

  lemma ReachesGate(ttl: nat, o: ObjectId, s: State, w: C.Worker, ops: seq<Op>, ok: bool)
    requires Inv(o, s) && w in s.hosts && s.hosts[w].run.phase.Waiting? && s.hosts[w].run.mailbox == []
    requires Serials(ops) == {}
    ensures var t := From(ttl, o, s, Locals(w, Serving(ops, ok)));
            && Inv(o, t) && w in t.hosts && OnlyRan(o, s, t, w, t.hosts[w].run)
            && AtGate(s.hosts[w].run, t.hosts[w].run, ops, ok)
  {
    assert HostInv(o, s, w);
    HostFacts(s.hosts[w]);
    ServingIsOrdinary(ops, ok);
    ServingRuns(s.hosts[w].run, ops, ok);
    ReachesBy(ttl, o, s, w, Serving(ops, ok), ops, ok);
  }

  /** A gate that may fail, where there is something to upload. */
  predicate GateOf(w: C.Worker, gate: Step, changes: nat) {
    gate == Local(w, O.Gate) || (gate.GateFails? && gate.worker == w && changes > 0)
  }

  lemma AnsweredByRuns(ttl: nat, o: ObjectId, s: State, w: C.Worker, ops: seq<Op>, ok: bool, gate: Step)
    requires Inv(o, s) && w in s.hosts && s.hosts[w].run.phase.Waiting? && s.hosts[w].run.mailbox == []
    requires Serials(ops) == {} && GateOf(w, gate, ChangesAll(s.hosts[w].run.home.db.committed, ops))
    ensures var s' := From(ttl, o, s, AnsweredBy(w, ops, ok, gate));
            CallDone(o, s, s', w, ops, ok, gate) && Inv(o, s')
  {
    ReachesGate(ttl, o, s, w, ops, ok);
    AnsweredSplits(ttl, o, s, w, ops, ok, gate);
    CallCompletes(ttl, o, s, From(ttl, o, s, Locals(w, Serving(ops, ok))), w, ops, ok, gate);
  }

  lemma AnsweredRuns(ttl: nat, o: ObjectId, s: State, w: C.Worker, ops: seq<Op>, ok: bool)
    requires Inv(o, s) && w in s.hosts && s.hosts[w].run.phase.Waiting? && s.hosts[w].run.mailbox == []
    requires Serials(ops) == {}
    ensures var s' := From(ttl, o, s, Answered(w, ops, ok));
            CallDone(o, s, s', w, ops, ok, Local(w, O.Gate)) && Inv(o, s')
  {
    AnsweredByRuns(ttl, o, s, w, ops, ok, Local(w, O.Gate));
  }

  lemma CallCompletes(ttl: nat, o: ObjectId, s: State, t: State, w: C.Worker, ops: seq<Op>, ok: bool, gate: Step)
    requires w in s.hosts && w in t.hosts && OnlyRan(o, s, t, w, t.hosts[w].run) && Inv(o, t)
    requires AtGate(s.hosts[w].run, t.hosts[w].run, ops, ok)
    requires GateOf(w, gate, ChangesAll(s.hosts[w].run.home.db.committed, ops))
    ensures var s' := Apply(ttl, o, Apply(ttl, o, t, gate), Local(w, O.Reply));
            CallDone(o, s, s', w, ops, ok, gate) && Inv(o, s')
  {
    var u := Apply(ttl, o, t, gate);
    GateStepDone(ttl, o, t, w, gate);
    StepKeeps(ttl, o, t, gate);
    OrdinaryStep(ttl, o, u, w, O.Reply);
    StepKeeps(ttl, o, u, Local(w, O.Reply));
    ReplyRuns(u.hosts[w].run);
    CallEnds(o, s, t, u, Apply(ttl, o, u, Local(w, O.Reply)), w, ops, ok, gate);
  }

  // ---- Taking over -----------------------------------------------------------------------

  /** No beat lies in the future. */
  ghost predicate ClockInv(k: C.State) {
    TablesValid(k.reg) && forall n | n in k.reg.nodes :: k.reg.nodes[n] <= k.now
  }

  /** Every node ages out, and worker `w` registers anew and spawns the object. */
  function Takeover(ttl: nat, w: C.Worker): seq<Step> {
    [Around(C.Tick(ttl)), Around(C.Register(w)), Visit(w)]
  }

  function NextEpoch(r: Tables, o: ObjectId): nat {
    if o in r.epochs then r.epochs[o] + 1 else 1
  }

  /** The cluster with everybody aged out and `w` registered. */
  function Alone(ttl: nat, k: C.State, w: C.Worker): C.State {
    C.Apply(ttl, C.Apply(ttl, k, C.Tick(ttl)), C.Register(w))
  }

  lemma AloneClaims(ttl: nat, o: ObjectId, k: C.State, w: C.Worker)
    requires ttl > 0 && ClockInv(k)
    ensures var a := Alone(ttl, k, w);
            && w in a.identity && C.Acquires(ttl, a, o, a.identity[w])
            && C.ClaimOutcome(ttl, a, o, a.identity[w]).value.epoch == NextEpoch(k.reg, o)
            && ClockInv(C.Apply(ttl, a, C.Spawn(w, o)))
            && C.Apply(ttl, a, C.Spawn(w, o)).reg.epochs == k.reg.epochs[o := NextEpoch(k.reg, o)]
  {
    var a := Alone(ttl, k, w);
    assert a.identity[w] == k.reg.nextNode && a.now == k.now + ttl;
    AloneReaps(ttl, k, w);
  }

  lemma AloneReaps(ttl: nat, k: C.State, w: C.Worker)
    requires ttl > 0 && ClockInv(k)
    ensures var a := Alone(ttl, k, w);
            Reaped(ttl, a.reg, a.now)
            == Tables(map[k.reg.nextNode := a.now], map[], k.reg.epochs, k.reg.nextNode + 1)
  {
    var a := Alone(ttl, k, w);
    assert Dead(ttl, a.reg, a.now) == k.reg.nodes.Keys;
    assert a.reg.nodes - k.reg.nodes.Keys == map[k.reg.nextNode := a.now];
  }

  /** A takeover leaves the store alone; the new task runs over the worker's own file, or the stored snapshot. */
  ghost predicate TakenOver(o: ObjectId, s: State, s': State, w: C.Worker) {
    && s' == s.(cluster := s'.cluster, hosts := s'.hosts)
    && w in s'.hosts && s'.hosts == s.hosts[w := s'.hosts[w]]
    && s'.cluster.store == s.cluster.store && s'.cluster.puts == s.cluster.puts
    && s'.cluster.reg.epochs == s.cluster.reg.epochs[o := NextEpoch(s.cluster.reg, o)]
    && var h := s'.hosts[w];
       && h.run.phase.Waiting? && h.run.mailbox == [] && h.task.epoch == NextEpoch(s.cluster.reg, o)
       && h.run.home.db.committed == C.SpawnFile(s.cluster, w, o)
       && h.line == (if w in s.hosts then s.hosts[w].line else s.line)
       && h.run.next == (if w in s.hosts then s.hosts[w].run.next else 0)
  }

  lemma TakeoverRuns(ttl: nat, o: ObjectId, s: State, w: C.Worker)
    requires ttl > 0 && Inv(o, s) && ClockInv(s.cluster) && !Resident(s, w)
    requires w in s.hosts ==> s.hosts[w].run.mailbox == []
    ensures var s' := From(ttl, o, s, Takeover(ttl, w)); TakenOver(o, s, s', w) && Inv(o, s') && ClockInv(s'.cluster)
  {
    var s1 := Apply(ttl, o, s, Around(C.Tick(ttl)));
    var s2 := Apply(ttl, o, s1, Around(C.Register(w)));
    var s3 := Apply(ttl, o, s2, Visit(w));
    assert Takeover(ttl, w)[..2] == [Around(C.Tick(ttl)), Around(C.Register(w))];
    assert Takeover(ttl, w)[..2][..1] == [Around(C.Tick(ttl))];
    FromOne(ttl, o, s, Around(C.Tick(ttl)));
    assert From(ttl, o, s, Takeover(ttl, w)[..2]) == s2;
    assert From(ttl, o, s, Takeover(ttl, w)) == s3;
    InvFrom(ttl, o, s, Takeover(ttl, w)[..2]);
    StepKeeps(ttl, o, s2, Visit(w));
    assert s2 == s.(cluster := Alone(ttl, s.cluster, w));
    AloneClaims(ttl, o, s.cluster, w);
    assert Spawns(ttl, s2, o, w);
    InvForStep(o, s2, Visit(w));
    VisitMoves(ttl, o, s2, w);
    VisitedHost(ttl, o, s2, w);
    SpawnShape(ttl, s2.cluster, o, w);
  }

  // ---- What every reachable state offers to a takeover -------------------------------------

  lemma ClockStep(ttl: nat, k: C.State, step: C.Step)
    requires ClockInv(k)
    ensures var k' := C.Apply(ttl, k, step); forall n | n in k'.reg.nodes :: k'.reg.nodes[n] <= k'.now
  {
  }

  lemma {:induction false} ClockAlways(ttl: nat, steps: seq<C.Step>)
    ensures ClockInv(C.From(ttl, C.INIT, steps))
  {
    C.EpochsAlways(ttl, steps);
    if steps != [] {
      ClockAlways(ttl, steps[..|steps| - 1]);
      ClockStep(ttl, C.From(ttl, C.INIT, steps[..|steps| - 1]), steps[|steps| - 1]);
    }
  }

  lemma HostsArise(ttl: nat, o: ObjectId, s: State, step: Step, w: C.Worker)
    requires w in Apply(ttl, o, s, step).hosts && w !in s.hosts
    ensures step == Visit(w) && Spawns(ttl, s, o, w)
  {
  }

  /** With a ttl of 0 no claim is ever granted, so nobody hosts anything. */
  lemma {:induction false} HostsNeedTtl(ttl: nat, o: ObjectId, steps: seq<Step>, w: C.Worker)
    requires w in After(ttl, o, steps).hosts
    ensures ttl > 0
  {
    var front := steps[..|steps| - 1];
    var s := After(ttl, o, front);
    if w in s.hosts {
      HostsNeedTtl(ttl, o, front, w);
    } else {
      HostsArise(ttl, o, s, steps[|steps| - 1], w);
      ClusterRuns(ttl, o, front);
      ClockAlways(ttl, ClusterSteps(ttl, o, front));
      C.AcquiredIsLive(ttl, s.cluster, o, s.cluster.identity[w]);
    }
  }

  lemma Reachable(ttl: nat, o: ObjectId, steps: seq<Step>)
    ensures var s := After(ttl, o, steps);
            && Inv(o, s) && ClockInv(s.cluster) && Fence.WithinEpochs(s.cluster)
            && (forall w | w in s.hosts && s.hosts[w].run.phase.Down? :: s.hosts[w].run.mailbox == [])
  {
    var s := After(ttl, o, steps);
    InvAlways(ttl, o, steps);
    ClusterRuns(ttl, o, steps);
    ClockAlways(ttl, ClusterSteps(ttl, o, steps));
    Fence.ManifestWithinEpoch(ttl, ClusterSteps(ttl, o, steps));
    forall w | w in s.hosts && s.hosts[w].run.phase.Down? ensures s.hosts[w].run.mailbox == [] {
      var h := s.hosts[w];
      assert HostInv(o, s, w);
      ObjectCalls.CallsAlways(PLACED, Restored(O.Replay(BLANK, h.base)), h.trace);
    }
  }
}

/** What callers observe over every run: order, exactly one answer each, and what an answer means. */
module ObjectCalls {
  import opened ObjectStorage
  import opened ObjectHome
  import opened ObjectRuns

  function Ids(answers: seq<Answer>): (ids: seq<nat>)
    ensures |ids| == |answers| && forall i :: 0 <= i < |ids| ==> ids[i] == answers[i].id
  {
    seq(|answers|, i requires 0 <= i < |answers| => answers[i].id)
  }

  function UpTo(n: nat): (ids: seq<nat>)
    ensures |ids| == n && forall i :: 0 <= i < n ==> ids[i] == i
  {
    seq(n, i => i)
  }

  ghost predicate Increasing(s: seq<nat>) {
    forall i, j :: 0 <= i < j < |s| ==> s[i] < s[j]
  }

  /** The log holds a finished dispatch of this call with this verdict. */
  ghost predicate Logged(log: seq<Entry>, id: nat, ok: bool) {
    exists i :: 0 <= i < |log| && log[i].cause == Call(id) && log[i].outcome == (if ok then Succeeded else Failed)
  }

  /** Every call ever made is answered, queued or in flight, and just one of these. */
  ghost predicate Balanced(answers: seq<Answer>, mailbox: seq<nat>, inFlight: seq<nat>, next: nat) {
    multiset(Ids(answers)) + multiset(mailbox) + multiset(inFlight) == multiset(UpTo(next))
  }

  ghost predicate Conserved(s: State) {
    && Balanced(s.answers, s.mailbox, InFlight(s.phase), s.next)
    && (s.phase.Down? ==> s.mailbox == [])
    && |s.mailbox| <= MAILBOX_DEPTH
  }

  ghost predicate Ordered(s: State) {
    && InLine(s.popped, s.mailbox, s.next)
    && (forall id | id in InFlight(s.phase) :: id in s.popped)
  }

  ghost predicate Truthful(s: State) {
    && (forall i | 0 <= i < |s.answers| && s.answers[i].Returned? :: Logged(s.log, s.answers[i].id, s.answers[i].ok))
    && (s.phase.Closed? || s.phase.Flushed? || s.phase.Released? ==>
          (s.phase.work.cause.Call? ==> Logged(s.log, s.phase.work.cause.id, s.phase.work.ok)))
  }

  ghost predicate GoneUndispatched(s: State) {
    s.crashes == 0 ==> forall i | 0 <= i < |s.answers| && s.answers[i].Gone? :: s.answers[i].id !in s.popped
  }

  lemma UpToStep(n: nat)
    ensures multiset(UpTo(n + 1)) == multiset(UpTo(n)) + multiset{n}
  {
    assert UpTo(n + 1) == UpTo(n) + [n];
  }

  lemma {:induction false} UpToOnce(n: nat, id: nat)
    ensures multiset(UpTo(n))[id] == if id < n then 1 else 0
  {
    if n > 0 {
      UpToOnce(n - 1, id);
      UpToStep(n - 1);
    } else {
      assert UpTo(0) == [];
    }
  }

  lemma IdsAppend(a: seq<Answer>, b: seq<Answer>)
    ensures Ids(a + b) == Ids(a) + Ids(b)
  {
  }

  lemma BalancedAnswer(answers: seq<Answer>, mailbox: seq<nat>, inFlight: seq<nat>, next: nat, more: seq<Answer>)
    requires Balanced(answers, mailbox, Ids(more) + inFlight, next)
    ensures Balanced(answers + more, mailbox, inFlight, next)
  {
    IdsAppend(answers, more);
  }

  lemma BalancedDrain(answers: seq<Answer>, mailbox: seq<nat>, inFlight: seq<nat>, next: nat)
    requires Balanced(answers, mailbox, inFlight, next)
    ensures Balanced(answers + AllGone(inFlight) + AllGone(mailbox), [], [], next)
  {
    assert Ids(AllGone(inFlight)) == inFlight && inFlight == inFlight + [];
    BalancedAnswer(answers, mailbox, [], next, AllGone(inFlight));
    assert Ids(AllGone(mailbox)) == mailbox;
    IdsAppend(answers + AllGone(inFlight), AllGone(mailbox));
  }

  lemma BalancedSend(answers: seq<Answer>, mailbox: seq<nat>, inFlight: seq<nat>, next: nat)
    requires Balanced(answers, mailbox, inFlight, next)
    ensures Balanced(answers, mailbox + [next], inFlight, next + 1)
    ensures Balanced(answers + [Gone(next)], mailbox, inFlight, next + 1)
  {
    UpToStep(next);
    IdsAppend(answers, [Gone(next)]);
    assert Ids([Gone(next)]) == [next];
  }

  lemma BalancedPop(answers: seq<Answer>, mailbox: seq<nat>, next: nat)
    requires mailbox != [] && Balanced(answers, mailbox, [], next)
    ensures Balanced(answers, mailbox[1..], [mailbox[0]], next)
  {
    assert mailbox == [mailbox[0]] + mailbox[1..];
  }

  lemma ConservedReply(cfg: Config, s: State)
    requires Conserved(s) && Enabled(s, Reply)
    ensures Conserved(Apply(cfg, s, Reply))
  {
    if s.phase.work.cause.Call? {
      var answer := Returned(s.phase.work.cause.id, s.phase.work.ok);
      assert InFlight(s.phase) == Ids([answer]) + [];
      BalancedAnswer(s.answers, s.mailbox, [], s.next, [answer]);
    }
  }

  lemma ConservedEnd(cfg: Config, s: State, step: Step)
    requires Conserved(s) && Enabled(s, step) && (step.Idle? || step.Crash?)
    ensures Conserved(Apply(cfg, s, step))
  {
    BalancedDrain(s.answers, s.mailbox, InFlight(s.phase), s.next);
    assert step.Idle? ==> s.answers + AllGone([]) == s.answers;
  }

  lemma ConservedSend(cfg: Config, s: State)
    requires Conserved(s) && Enabled(s, Send)
    ensures Conserved(Apply(cfg, s, Send))
  {
    BalancedSend(s.answers, s.mailbox, InFlight(s.phase), s.next);
  }

  lemma ConservedPop(cfg: Config, s: State, step: Step)
    requires Conserved(s) && Enabled(s, step) && step.Pop?
    ensures Conserved(Apply(cfg, s, step))
  {
    BalancedPop(s.answers, s.mailbox, s.next);
    var s' := Apply(cfg, s, step);
    assert InFlight(s'.phase) == [s.mailbox[0]];
  }

  predicate Quiet(step: Step) {
    !step.Send? && !step.Pop? && !step.Reply? && !step.Idle? && !step.Crash?
  }

  lemma QuietStep(cfg: Config, s: State, step: Step)
    requires Quiet(step)
    ensures var s' := Apply(cfg, s, step);
            && s'.answers == s.answers && s'.mailbox == s.mailbox && s'.next == s.next
            && InFlight(s'.phase) == InFlight(s.phase)
            && (s'.phase.Down? ==> s.phase.Down? || s.mailbox == [])
  {
  }

  lemma ConservedStep(cfg: Config, s: State, step: Step)
    requires Conserved(s)
    ensures Conserved(Apply(cfg, s, step))
  {
    var s' := Apply(cfg, s, step);
    assert Conserved(s') by {
      if !Enabled(s, step) {
        assert s' == s;
      } else if Quiet(step) {
        QuietStep(cfg, s, step);
      } else {
        match step
        case Send => ConservedSend(cfg, s);
        case Pop(_, _) => ConservedPop(cfg, s, step);
        case Reply => ConservedReply(cfg, s);
        case _ => ConservedEnd(cfg, s, step);
      }
    }
  }

  /** The calls popped and those still queued, in one line. */
  ghost predicate InLine(popped: seq<nat>, mailbox: seq<nat>, next: nat) {
    && Increasing(popped + mailbox)
    && (forall id | id in popped :: id < next)
    && (forall id | id in mailbox :: id < next)
  }

  lemma InLinePop(popped: seq<nat>, mailbox: seq<nat>, next: nat)
    requires InLine(popped, mailbox, next) && mailbox != []
    ensures InLine(popped + [mailbox[0]], mailbox[1..], next)
  {
    assert popped + mailbox == popped + [mailbox[0]] + mailbox[1..];
    assert mailbox[0] in mailbox;
    assert forall id | id in mailbox[1..] :: id in mailbox;
  }

  lemma InLineDrop(popped: seq<nat>, mailbox: seq<nat>, next: nat)
    requires InLine(popped, mailbox, next)
    ensures InLine(popped, [], next)
  {
    assert popped + [] == (popped + mailbox)[..|popped|];
  }

  lemma InLineSend(popped: seq<nat>, mailbox: seq<nat>, next: nat)
    requires InLine(popped, mailbox, next)
    ensures InLine(popped, mailbox + [next], next + 1) && InLine(popped, mailbox, next + 1)
  {
    var both := popped + mailbox;
    assert popped + (mailbox + [next]) == both + [next];
    forall i | 0 <= i < |both| ensures both[i] < next {
      assert both[i] in popped || both[i] in mailbox;
    }
  }

  lemma OrderedQuiet(cfg: Config, s: State, step: Step)
    requires !step.Send? && !step.Pop? && !step.Idle? && !step.Crash?
    ensures var s' := Apply(cfg, s, step);
            && s'.popped == s.popped && s'.mailbox == s.mailbox && s'.next == s.next
            && forall id | id in InFlight(s'.phase) :: id in InFlight(s.phase)
  {
  }

  lemma OrderedStep(cfg: Config, s: State, step: Step)
    requires Ordered(s)
    ensures Ordered(Apply(cfg, s, step))
  {
    if !Enabled(s, step) {
    } else if step.Pop? {
      InLinePop(s.popped, s.mailbox, s.next);
    } else if step.Idle? || step.Crash? {
      InLineDrop(s.popped, s.mailbox, s.next);
    } else if step.Send? {
      InLineSend(s.popped, s.mailbox, s.next);
    } else {
      OrderedQuiet(cfg, s, step);
    }
  }

  lemma LoggedExtends(log: seq<Entry>, more: seq<Entry>, id: nat, ok: bool)
    requires Logged(log, id, ok)
    ensures Logged(log + more, id, ok)
  {
    var i :| 0 <= i < |log| && log[i].cause == Call(id) && log[i].outcome == (if ok then Succeeded else Failed);
    assert (log + more)[i] == log[i];
  }

  lemma TruthfulStep(cfg: Config, s: State, step: Step)
    requires Truthful(s)
    ensures Truthful(Apply(cfg, s, step))
  {
    var s' := Apply(cfg, s, step);
    assert s.log <= s'.log && s'.log == s.log + s'.log[|s.log|..];
    forall i | 0 <= i < |s'.answers| && s'.answers[i].Returned?
      ensures Logged(s'.log, s'.answers[i].id, s'.answers[i].ok)
    {
      if i < |s.answers| {
        LoggedExtends(s.log, s'.log[|s.log|..], s'.answers[i].id, s'.answers[i].ok);
      } else {
        assert step.Reply?;
      }
    }
    if Enabled(s, step) && step.Settle? {
      assert s'.log[|s.log|].cause == s.phase.work.cause;
    }
  }

  lemma QueuedIsUnanswered(s: State, id: nat)
    requires Conserved(s) && id in s.mailbox
    ensures forall i | 0 <= i < |s.answers| :: s.answers[i].id != id
  {
    UpToOnce(s.next, id);
    assert multiset(s.mailbox)[id] >= 1;
    assert multiset(Ids(s.answers))[id] == 0;
    forall i | 0 <= i < |s.answers| ensures s.answers[i].id != id {
      assert Ids(s.answers)[i] in multiset(Ids(s.answers));
    }
  }

  lemma QueuedIsUnpopped(s: State)
    requires Ordered(s)
    ensures forall j, k | 0 <= j < |s.popped| && 0 <= k < |s.mailbox| :: s.popped[j] < s.mailbox[k]
  {
    var both := s.popped + s.mailbox;
    forall j, k | 0 <= j < |s.popped| && 0 <= k < |s.mailbox| ensures s.popped[j] < s.mailbox[k] {
      assert both[j] < both[|s.popped| + k];
    }
  }

  lemma GoneStep(cfg: Config, s: State, step: Step)
    requires Conserved(s) && Ordered(s) && GoneUndispatched(s)
    ensures GoneUndispatched(Apply(cfg, s, step))
  {
    if Enabled(s, step) && step.Pop? {
      QueuedIsUnanswered(s, s.mailbox[0]);
    } else if Enabled(s, step) && step.Idle? {
      QueuedIsUnpopped(s);
    }
  }

  lemma {:induction false} CallsAlways(cfg: Config, d: Db, steps: seq<Step>)
    ensures var s := After(cfg, d, steps); Conserved(s) && Ordered(s) && Truthful(s) && GoneUndispatched(s)
  {
    if steps == [] {
      assert UpTo(0) == [] && Ids([]) == [];
    } else {
      CallsAlways(cfg, d, steps[..|steps| - 1]);
      var s := After(cfg, d, steps[..|steps| - 1]);
      ConservedStep(cfg, s, steps[|steps| - 1]);
      OrderedStep(cfg, s, steps[|steps| - 1]);
      TruthfulStep(cfg, s, steps[|steps| - 1]);
      GoneStep(cfg, s, steps[|steps| - 1]);
    }
  }

  /** Answered, queued and in-flight calls always add up to the calls made; no call is answered
      twice, and once the mailbox is closed every call ever made has exactly one answer. */
  lemma EveryCallAnsweredOnce(cfg: Config, d: Db, steps: seq<Step>)
    ensures var s := After(cfg, d, steps);
            && Balanced(s.answers, s.mailbox, InFlight(s.phase), s.next)
            && (forall id: nat :: multiset(Ids(s.answers))[id] <= 1)
            && (s.phase.Down? ==> multiset(Ids(s.answers)) == multiset(UpTo(s.next)))
            && |s.mailbox| <= 128
  {
    CallsAlways(cfg, d, steps);
    var s := After(cfg, d, steps);
    forall id: nat ensures multiset(Ids(s.answers))[id] <= 1 {
      UpToOnce(s.next, id);
      assert (multiset(Ids(s.answers)) + multiset(s.mailbox) + multiset(InFlight(s.phase)))[id] <= 1;
    }
  }

  /** Calls are dispatched in arrival order, each at most once, across every crash and respawn. */
  lemma CallsRunInArrivalOrder(cfg: Config, d: Db, steps: seq<Step>)
    ensures var s := After(cfg, d, steps);
            && Increasing(s.popped)
            && (forall id, later | id in s.popped && later in s.mailbox :: id < later)
  {
    CallsAlways(cfg, d, steps);
    var s := After(cfg, d, steps);
    var both := s.popped + s.mailbox;
    assert forall i :: 0 <= i < |s.popped| ==> both[i] == s.popped[i];
    forall id, later | id in s.popped && later in s.mailbox ensures id < later {
      var i :| 0 <= i < |s.popped| && s.popped[i] == id;
      var j :| 0 <= j < |s.mailbox| && s.mailbox[j] == later;
      assert both[i] < both[|s.popped| + j];
    }
  }

  /** A call is queued behind the others while fewer than 128 are, waits while they are not, and is
      told Gone when there is no task. */
  lemma SendOutcome(cfg: Config, s: State)
    ensures var t := Apply(cfg, s, Send);
            if s.phase.Down? then t == s.(next := s.next + 1, answers := s.answers + [Gone(s.next)])
            else if |s.mailbox| < 128 then t == s.(next := s.next + 1, mailbox := s.mailbox + [s.next])
            else t == s
  {
  }

  /** A waiting task hibernates exactly when no alarm is armed, telling whoever queued meanwhile that
      it is gone, and ends for want of senders exactly when nobody is queued. */
  lemma EndsExactly(cfg: Config, s: State)
    requires s.phase.Waiting?
    ensures var idle, left := Apply(cfg, s, Idle), Apply(cfg, s, Disconnect);
            && (idle.phase.Down? <==> s.home.cell.None?) && (left.phase.Down? <==> s.mailbox == [])
            && (idle.phase.Down? ==> idle.mailbox == [] && idle.answers == s.answers + AllGone(s.mailbox))
            && idle.home == s.home && left.home == s.home
  {
  }

  // ---- The log is the popped calls, in their order ----------------------------------------

  /** The calls a log holds, in its order, alarms left out. */
  function CallIds(log: seq<Entry>): seq<nat> {
    if log == [] then []
    else
      var e := log[|log| - 1];
      CallIds(log[..|log| - 1]) + (if e.cause.Call? then [e.cause.id] else [])
  }

  /** The call popped and not yet logged. */
  function Unlogged(p: Phase): seq<nat> {
    if p.Ready? || p.Running? then InFlight(p) else []
  }

  lemma CallIdsStep(log: seq<Entry>, e: Entry)
    ensures CallIds(log + [e]) == CallIds(log) + (if e.cause.Call? then [e.cause.id] else [])
  {
  }

  /** A dispatch is logged once, when it settles or dies, with the cause it was popped for. */
  ghost predicate LogMoves(s: State, s': State) {
    if s'.log == s.log then
      || (s'.popped == s.popped && Unlogged(s'.phase) == Unlogged(s.phase))
      || (s'.popped == s.popped + Unlogged(s'.phase) && Unlogged(s.phase) == [])
    else
      && (s.phase.Ready? || s.phase.Running?) && s'.popped == s.popped && Unlogged(s'.phase) == []
      && |s'.log| == |s.log| + 1 && s'.log == s.log + [s'.log[|s.log|]]
      && s'.log[|s.log|].cause == s.phase.work.cause
  }

  lemma LogShape(cfg: Config, s: State, step: Step)
    ensures LogMoves(s, Apply(cfg, s, step))
  {
  }

  lemma LogMovesInOrder(s: State, s': State)
    requires LogMoves(s, s') && s.popped == CallIds(s.log) + Unlogged(s.phase)
    ensures s'.popped == CallIds(s'.log) + Unlogged(s'.phase)
  {
    if s'.log != s.log {
      CallIdsStep(s.log, s'.log[|s.log|]);
    }
  }

  lemma LoggedInOrderStep(cfg: Config, s: State, step: Step)
    requires s.popped == CallIds(s.log) + Unlogged(s.phase)
    ensures var s' := Apply(cfg, s, step); s'.popped == CallIds(s'.log) + Unlogged(s'.phase)
  {
    LogShape(cfg, s, step);
    LogMovesInOrder(s, Apply(cfg, s, step));
  }

  lemma {:induction false} LoggedInOrder(cfg: Config, d: Db, steps: seq<Step>)
    ensures var s := After(cfg, d, steps); s.popped == CallIds(s.log) + Unlogged(s.phase)
  {
    if steps != [] {
      LoggedInOrder(cfg, d, steps[..|steps| - 1]);
      LoggedInOrderStep(cfg, After(cfg, d, steps[..|steps| - 1]), steps[|steps| - 1]);
    }
  }

  /**
   The durable content is the fold of the logged dispatches; their calls are exactly the calls
   popped so far, in the order popped, but for the one being dispatched; and that order is the
   order of arrival. So the object is a left fold over its calls as they arrived.
   */
  lemma FileIsReplayInArrivalOrder(cfg: Config, d: Db, steps: seq<Step>)
    requires InitialFile(d) && cfg.stored
    ensures var s := After(cfg, d, steps);
            && s.popped == CallIds(s.log) + Unlogged(s.phase)
            && Increasing(CallIds(s.log))
            && (!s.phase.Ready? && !s.phase.Running? ==>
                  s.home.db.committed == Replay(d.committed, s.log) && s.popped == CallIds(s.log))
            && (s.phase.Released? ==> s.home.db.main == Replay(d.committed, s.log))
  {
    FileIsReplay(cfg, d, steps);
    LoggedInOrder(cfg, d, steps);
    CallsRunInArrivalOrder(cfg, d, steps);
    var s := After(cfg, d, steps);
    assert forall i | 0 <= i < |CallIds(s.log)| :: s.popped[i] == CallIds(s.log)[i];
  }

  /**
   A returned verdict is the verdict of a dispatch the file's replay contains; in a run
   without crashes, a caller told the object is gone was never dispatched.
   */
  lemma AnswersAreTruthful(cfg: Config, d: Db, steps: seq<Step>)
    ensures var s := After(cfg, d, steps);
            && (forall i | 0 <= i < |s.answers| && s.answers[i].Returned? ::
                  Logged(s.log, s.answers[i].id, s.answers[i].ok))
            && (Crash !in steps ==>
                  forall i | 0 <= i < |s.answers| && s.answers[i].Gone? :: s.answers[i].id !in s.popped)
  {
    CallsAlways(cfg, d, steps);
    if Crash !in steps {
      NoCrashes(cfg, d, steps);
    }
  }

  lemma CrashCounted(cfg: Config, s: State, step: Step)
    requires !step.Crash?
    ensures Apply(cfg, s, step).crashes == s.crashes
  {
  }

  lemma {:induction false} NoCrashes(cfg: Config, d: Db, steps: seq<Step>)
    requires Crash !in steps
    ensures After(cfg, d, steps).crashes == 0
  {
    if steps != [] {
      NoCrashes(cfg, d, steps[..|steps| - 1]);
      CrashCounted(cfg, After(cfg, d, steps[..|steps| - 1]), steps[|steps| - 1]);
    }
  }
}

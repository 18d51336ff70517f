/**
 What `GetReader` answers and why (internal/streampool/streampool.go:62-103): which client
 gets a reader, which an error, and where the start error it looks at comes from.
 */
module StreamPoolAnswers {
  import opened Basics
  import opened Segmenters
  import opened StreamPool
  import opened StreamPoolSafety

  // ---------- Answers agree with the start error ----------

  /** A reader, also one being closed, only for a stream that came up; a failed start only for one that did not. */
  predicate AnswerOk(pc: Pc, segs: seq<Seg>) {
    match pc
    case Read(s) => s < |segs| && segs[s].signals.ready && segs[s].signals.startErr.None?
    case Leave(s, exit) => ExitOk(exit, s, segs)
    case Notify(s, exit) => ExitOk(exit, s, segs)
    case _ => true
  }

  predicate ExitOk(exit: Exit, s: SegId, segs: seq<Seg>) {
    match exit
    case StartFailed => s < |segs| && segs[s].signals.ready && segs[s].signals.startErr.Some?
    case Closed => s < |segs| && segs[s].signals.ready && segs[s].signals.startErr.None?
    case _ => true
  }

  ghost predicate Answers(st: State) {
    forall c | 0 <= c < |st.clients| :: AnswerOk(st.clients[c].pc, st.segs)
  }

  /** An outcome once reported is never changed. */
  ghost predicate KeepsOutcomes(st: State, st': State) {
    && |st'.segs| >= |st.segs|
    && forall s | 0 <= s < |st.segs| && st.segs[s].signals.ready ::
         st'.segs[s].signals.ready && st'.segs[s].signals.startErr == st.segs[s].signals.startErr
  }

  lemma StepKeepsOutcomes(st: State, step: Step)
    requires Enabled(st, step)
    ensures KeepsOutcomes(st, Apply(st, step))
  {
  }

  lemma ClientStepAnswers(st: State, c: ClientId, move: ClientMove)
    requires Enabled(st, ClientStep(c, move)) && AnswerOk(st.clients[c].pc, st.segs)
    ensures AnswerOk(ApplyClient(st, c, move).clients[c].pc, ApplyClient(st, c, move).segs)
  {
  }

  lemma StepKeepsAnswers(st: State, step: Step)
    requires Enabled(st, step) && Answers(st)
    ensures Answers(Apply(st, step))
  {
    var st' := Apply(st, step);
    StepKeepsOutcomes(st, step);
    forall c | 0 <= c < |st'.clients| ensures AnswerOk(st'.clients[c].pc, st'.segs) {
      if step.ClientStep? && step.c == c {
        ClientStepAnswers(st, c, step.move);
      } else if c < |st.clients| {
        assert AnswerOk(st.clients[c].pc, st.segs);
        OthersAnswer(st, step, c);
      }
    }
  }

  lemma OthersAnswer(st: State, step: Step, c: ClientId)
    requires Enabled(st, step) && c < |st.clients| && !(step.ClientStep? && step.c == c)
    ensures var pc := Apply(st, step).clients[c].pc;
      pc == st.clients[c].pc || (!pc.Read? && !pc.Leave? && !pc.Notify?)
  {
  }

  /**
   In every reachable state a client with a reader has one of a stream that came up without an error, and
   whoever is turned away for a failed start, one whose start failed.
   */
  lemma {:induction false} AnswersAreRight(states: seq<State>, steps: seq<Step>, n: nat)
    requires IsRun(states, steps) && Initial(states[0]) && n < |states|
    ensures Answers(states[n])
  {
    if n > 0 {
      AnswersAreRight(states, steps, n - 1);
      StepKeepsAnswers(states[n - 1], steps[n - 1]);
    }
  }

  // ---------- Where the start error comes from ----------

  /** Step `m` reports the outcome of segmenter `s`, before which there was none. */
  ghost predicate ReportedAt(states: seq<State>, steps: seq<Step>, m: nat, s: SegId, err: Option<StartError>) {
    && m < |steps| && m < |states| && s < |states[m].segs| && !states[m].segs[s].signals.ready
    && var seg := states[m].segs[s];
       || (steps[m] == OwnerStep(s, ReportPoll(err)) && err != Some(ProcessFailed)
           && (err == Some(ContextCancelled) ==> seg.signals.cancelled))
       || (steps[m] == OwnerStep(s, ReportExit)
           && (err == Some(ProcessFailed) <==> seg.phase == Exited(true) && !seg.procCancelled)
           && (err.None? <==> seg.phase != Exited(true) || seg.procCancelled))
  }

  /** The one step that makes `s` ready. */
  lemma BecomesReady(st: State, step: Step, s: SegId)
    requires Enabled(st, step) && s < |Apply(st, step).segs| && Apply(st, step).segs[s].signals.ready
    requires s < |st.segs| ==> !st.segs[s].signals.ready
    ensures s < |st.segs| && step.OwnerStep? && step.s == s && (step.act.ReportPoll? || step.act.ReportExit?)
    ensures var err := Apply(st, step).segs[s].signals.startErr;
      if step.act.ReportPoll? then
        err == step.act.err && err != Some(ProcessFailed)
        && (err == Some(ContextCancelled) ==> st.segs[s].signals.cancelled)
      else err == if st.segs[s].phase == Exited(true) && !st.segs[s].procCancelled then Some(ProcessFailed) else None
  {
  }

  /** The start error is what the first report said; an exit is an error exactly when it failed uncancelled. */
  lemma {:induction false} FirstReportCounts(states: seq<State>, steps: seq<Step>, n: nat, s: SegId)
    requires IsRun(states, steps) && Initial(states[0]) && n < |states|
    requires s < |states[n].segs| && states[n].segs[s].signals.ready
    ensures exists m: nat :: m < n && ReportedAt(states, steps, m, s, states[n].segs[s].signals.startErr)
  {
    var m := n - 1;
    if s < |states[m].segs| && states[m].segs[s].signals.ready {
      StepKeepsOutcomes(states[m], steps[m]);
      FirstReportCounts(states, steps, m, s);
    } else {
      BecomesReady(states[m], steps[m], s);
      assert ReportedAt(states, steps, m, s, states[n].segs[s].signals.startErr);
    }
  }

  // ---------- Why a call ends ----------

  predicate Ends(pc: Pc, exit: Exit) {
    (pc.Leave? || pc.Notify? || pc.Done?) && pc.exit == exit
  }

  /** The step by which client `c` comes to end with `exit`. */
  predicate Decides(st: State, step: Step, c: ClientId, exit: Exit)
    requires c < |st.clients|
  {
    var pc := st.clients[c].pc;
    match exit
    case CreateFailed => step == GetOrCreate(c, false) && st.clients[c].key !in st.pool
    case NoPermit(s) =>
      || (step == EvictKey(c) && pc == Evict(s))
      || (step == ClientStep(c, NotifyFound) && pc.EvictNotify? && pc.seg == s)
    case Abandoned => step == ClientStep(c, SeeCancelled) && pc.Wait?
    case StartFailed =>
      step == ClientStep(c, SeeReady) && pc.Wait? && pc.seg < |st.segs|
      && st.segs[pc.seg].signals.ready && st.segs[pc.seg].signals.startErr.Some?
    case Closed => step == ClientStep(c, CloseReader) && pc.Read?
  }

  lemma EndsByDecision(st: State, step: Step, c: ClientId, exit: Exit)
    requires Enabled(st, step) && c < |Apply(st, step).clients| && Ends(Apply(st, step).clients[c].pc, exit)
    requires c < |st.clients| ==> !Ends(st.clients[c].pc, exit)
    ensures c < |st.clients| && Decides(st, step, c, exit)
  {
  }

  /** Every way a call can end has its one reason. */
  lemma {:induction false} EveryEndHasItsReason(states: seq<State>, steps: seq<Step>, n: nat, c: ClientId, exit: Exit)
    requires IsRun(states, steps) && Initial(states[0]) && n < |states|
    requires c < |states[n].clients| && Ends(states[n].clients[c].pc, exit)
    ensures exists m: nat :: m < n && c < |states[m].clients| && Decides(states[m], steps[m], c, exit)
  {
    var m := n - 1;
    if c < |states[m].clients| && Ends(states[m].clients[c].pc, exit) {
      EveryEndHasItsReason(states, steps, m, c, exit);
    } else {
      EndsByDecision(states[m], steps[m], c, exit);
    }
  }

  /** A reader comes from seeing `ready` without a start error, and from nothing else. */
  lemma ReaderBySeeingReady(st: State, step: Step, c: ClientId)
    requires Enabled(st, step) && c < |Apply(st, step).clients| && Apply(st, step).clients[c].pc.Read?
    requires c < |st.clients| ==> !st.clients[c].pc.Read?
    ensures c < |st.clients| && step == ClientStep(c, SeeReady)
    ensures st.clients[c].pc.Wait? && st.clients[c].pc.seg < |st.segs|
    ensures st.segs[st.clients[c].pc.seg].signals.ready && st.segs[st.clients[c].pc.seg].signals.startErr.None?
  {
  }

  // ---------- How processes end ----------

  /** The process of `s` ends at step `m`: it runs and exits, or it could not be started. */
  predicate ExitsBy(st: State, step: Step, s: SegId, failed: bool)
    requires s < |st.segs|
  {
    || (step == OwnerStep(s, ExitProcess(failed)) && st.segs[s].phase.Live?)
    || (step == OwnerStep(s, FailToStart) && st.segs[s].phase.Spawned? && failed)
  }

  lemma {:induction false} ExitedBecause(states: seq<State>, steps: seq<Step>, n: nat, s: SegId)
    requires IsRun(states, steps) && Initial(states[0]) && n < |states|
    requires s < |states[n].segs| && states[n].segs[s].phase.Exited?
    ensures exists m: nat ::
      m < n && s < |states[m].segs| && ExitsBy(states[m], steps[m], s, states[n].segs[s].phase.failed)
  {
    var m := n - 1;
    ExitStep(states[m], steps[m], s);
    if s < |states[m].segs| && states[m].segs[s].phase == states[n].segs[s].phase {
      ExitedBecause(states, steps, m, s);
    }
  }

  /** Steps other than those of its owner, process and poll bring no segmenter to `Exited`. */
  lemma OthersExitNothing(st: State, step: Step, s: SegId)
    requires Enabled(st, step) && s < |Apply(st, step).segs| && Apply(st, step).segs[s].phase.Exited?
    requires !(step.OwnerStep? && step.s == s)
    ensures s < |st.segs| && st.segs[s].phase == Apply(st, step).segs[s].phase
  {
  }

  lemma ExitStep(st: State, step: Step, s: SegId)
    requires Enabled(st, step) && s < |Apply(st, step).segs| && Apply(st, step).segs[s].phase.Exited?
    ensures s < |st.segs|
    ensures var phase := Apply(st, step).segs[s].phase;
      st.segs[s].phase == phase || ExitsBy(st, step, s, phase.failed)
  {
    if !(step.OwnerStep? && step.s == s) {
      OthersExitNothing(st, step, s);
    }
  }

  // ---------- Removed segmenters are stopped ----------

  /** The owner has stopped waiting for the segmenter to be announced empty. */
  predicate IsUnwinding(phase: Phase) {
    phase.Releasing? || phase.Removing? || phase.Stopping? || phase.Notifying? || phase.Gone?
  }

  /** An unwinding owner has cancelled the process; how far `stop` has come with a segmenter that it removes. */
  predicate StopOk(seg: Seg) {
    && (IsUnwinding(seg.phase) ==> seg.signals.empty && seg.procCancelled)
    && (seg.phase.Notifying? ==> seg.signals.cancelled)
    && (seg.phase.Gone? ==> seg.signals.cancelled && seg.signals.empty)
  }

  /** And with one that its creator evicts. */
  predicate EvictOk(pc: Pc, segs: seq<Seg>) {
    match pc
    case EvictNotify(s, _) => s < |segs| && segs[s].signals.cancelled
    case Done(exit) => exit.NoPermit? ==>
      exit.seg < |segs| && segs[exit.seg].signals.cancelled && segs[exit.seg].signals.empty
    case _ => true
  }

  ghost predicate Stops(st: State) {
    && (forall s | 0 <= s < |st.segs| :: StopOk(st.segs[s]))
    && (forall c | 0 <= c < |st.clients| :: EvictOk(st.clients[c].pc, st.segs))
  }

  /** Cancellation and emptiness are for good. */
  lemma SignalsStay(st: State, step: Step, s: SegId)
    requires Enabled(st, step) && s < |st.segs|
    ensures s < |Apply(st, step).segs|
    ensures st.segs[s].signals.cancelled ==> Apply(st, step).segs[s].signals.cancelled
    ensures st.segs[s].signals.empty ==> Apply(st, step).segs[s].signals.empty
    ensures st.segs[s].procCancelled ==> Apply(st, step).segs[s].procCancelled
  {
  }

  /** A step of the owner of `s` that unwinds. */
  predicate Unwinds(step: Step, s: SegId) {
    step == GivePermit(s) || step == RemoveKey(s) || step == StopCancel(s) || step == StopNotify(s)
  }

  lemma UnwindingStops(st: State, step: Step, s: SegId)
    requires Inv(st) && Stops(st) && Enabled(st, step) && s < |st.segs| && Unwinds(step, s)
    ensures StopOk(Apply(st, step).segs[s])
  {
    assert SegOk(st, s) && StopOk(st.segs[s]);
  }

  lemma OwnerActStops(st: State, s: SegId, act: OwnerMove)
    requires Enabled(st, OwnerStep(s, act)) && StopOk(st.segs[s])
    ensures StopOk(Act(st.segs[s], act))
  {
  }

  /** Any other step leaves the phase of `s`, or has it spawned or evicted. */
  lemma OthersStop(st: State, step: Step, s: SegId)
    requires Enabled(st, step) && s < |st.segs| && StopOk(st.segs[s])
    requires !Unwinds(step, s) && !(step.OwnerStep? && step.s == s)
    ensures StopOk(Apply(st, step).segs[s])
  {
    SignalsStay(st, step, s);
  }

  lemma SegStops(st: State, step: Step, s: SegId)
    requires Inv(st) && Stops(st) && Enabled(st, step) && s < |Apply(st, step).segs|
    ensures StopOk(Apply(st, step).segs[s])
  {
    if s < |st.segs| {
      assert StopOk(st.segs[s]);
      if Unwinds(step, s) {
        UnwindingStops(st, step, s);
      } else if step.OwnerStep? && step.s == s {
        OwnerActStops(st, s, step.act);
      } else {
        OthersStop(st, step, s);
      }
    }
  }

  lemma OwnMoveStops(st: State, c: ClientId, move: ClientMove)
    requires Inv(st) && Stops(st) && Enabled(st, ClientStep(c, move))
    ensures EvictOk(ApplyClient(st, c, move).clients[c].pc, ApplyClient(st, c, move).segs)
  {
    assert ClientOk(st, c) && EvictOk(st.clients[c].pc, st.segs);
  }

  lemma EvictStops(st: State, c: ClientId)
    requires Inv(st) && Enabled(st, EvictKey(c))
    ensures Apply(st, EvictKey(c)).clients[c].pc.EvictCancel?
  {
    assert ClientOk(st, c) && SegOk(st, st.clients[c].pc.seg);
  }

  /** What a client is known to have done stays done. */
  lemma EvictOkStays(st: State, step: Step, pc: Pc)
    requires Enabled(st, step) && EvictOk(pc, st.segs)
    ensures EvictOk(pc, Apply(st, step).segs)
  {
    if pc.EvictNotify? {
      SignalsStay(st, step, pc.seg);
    } else if pc.Done? && pc.exit.NoPermit? {
      SignalsStay(st, step, pc.exit.seg);
    }
  }

  lemma ClientStops(st: State, step: Step, c: ClientId)
    requires Inv(st) && Stops(st) && Enabled(st, step) && c < |Apply(st, step).clients|
    ensures EvictOk(Apply(st, step).clients[c].pc, Apply(st, step).segs)
  {
    if c < |st.clients| {
      if step.ClientStep? && step.c == c {
        OwnMoveStops(st, c, step.move);
      } else if step == EvictKey(c) {
        EvictStops(st, c);
      } else {
        EvictOkStays(st, step, st.clients[c].pc);
      }
    }
  }

  /** In every reachable state a segmenter that was removed or evicted has been cancelled and announced empty. */
  lemma {:induction false} RemovedIsStopped(states: seq<State>, steps: seq<Step>, n: nat)
    requires IsRun(states, steps) && Initial(states[0]) && n < |states|
    ensures Stops(states[n])
  {
    if n > 0 {
      var st, step := states[n - 1], steps[n - 1];
      RemovedIsStopped(states, steps, n - 1);
      EveryRunIsSafe(states, steps, n - 1);
      forall s | 0 <= s < |states[n].segs| ensures StopOk(states[n].segs[s]) {
        SegStops(st, step, s);
      }
      forall c | 0 <= c < |states[n].clients| ensures EvictOk(states[n].clients[c].pc, states[n].segs) {
        ClientStops(st, step, c);
      }
    }
  }
}

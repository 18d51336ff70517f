/**
 Reclamation: once requests stop arriving, every execution is finite, and it can only
 come to rest with an empty map and every permit returned.
 */
module StreamPoolReclamation {
  import opened Basics
  import opened StreamPool
  import opened StreamPoolSafety

  // ---------- A measure that every step but an arrival decreases ----------

  function PcRank(pc: Pc): nat {
    match pc
    case Lookup => 20
    case Acquire(_) => 5
    case Evict(_) => 4
    case EvictCancel(_, _) => 3
    case EvictNotify(_, _) => 1
    case Join(_) => 5
    case Wait(_) => 4
    case Read(_) => 3
    case Leave(_, _) => 2
    case Notify(_, _) => 1
    case Done(_) => 0
  }

  function PhaseRank(phase: Phase): nat {
    match phase
    case Reserved => 12
    case Spawned => 11
    case Live => 8
    case Exited(_) => 7
    case Lingering => 6
    case Releasing => 5
    case Removing => 4
    case Stopping(_) => 3
    case Notifying(_) => 2
    case Gone => 0
    case Evicted => 0
  }

  function SegRank(seg: Seg): nat {
    PhaseRank(seg.phase) + (if seg.polling then 1 else 0) + (if seg.procCancelled then 0 else 1)
  }

  function ClientsRank(clients: seq<Client>): nat {
    if clients == [] then 0 else ClientsRank(clients[..|clients| - 1]) + PcRank(clients[|clients| - 1].pc)
  }

  function SegsRank(segs: seq<Seg>): nat {
    if segs == [] then 0 else SegsRank(segs[..|segs| - 1]) + SegRank(segs[|segs| - 1])
  }

  function Measure(st: State): nat {
    ClientsRank(st.clients) + SegsRank(st.segs)
  }

  lemma {:induction false} ClientsRankUpdate(clients: seq<Client>, c: ClientId, client: Client)
    requires c < |clients|
    ensures ClientsRank(clients[c := client]) + PcRank(clients[c].pc) == ClientsRank(clients) + PcRank(client.pc)
  {
    var n := |clients| - 1;
    if c == n {
      assert clients[c := client][..n] == clients[..n];
    } else {
      assert clients[c := client][..n] == clients[..n][c := client];
      ClientsRankUpdate(clients[..n], c, client);
    }
  }

  lemma {:induction false} SegsRankUpdate(segs: seq<Seg>, s: SegId, seg: Seg)
    requires s < |segs|
    ensures SegsRank(segs[s := seg]) + SegRank(segs[s]) == SegsRank(segs) + SegRank(seg)
  {
    var n := |segs| - 1;
    if s == n {
      assert segs[s := seg][..n] == segs[..n];
    } else {
      assert segs[s := seg][..n] == segs[..n][s := seg];
      SegsRankUpdate(segs[..n], s, seg);
    }
  }

  lemma {:induction false} SegsRankAgree(a: seq<Seg>, b: seq<Seg>)
    requires |a| == |b| && forall s | 0 <= s < |a| :: SegRank(a[s]) == SegRank(b[s])
    ensures SegsRank(a) == SegsRank(b)
  {
    if a != [] {
      SegsRankAgree(a[..|a| - 1], b[..|b| - 1]);
    }
  }

  lemma ClientStepDescends(st: State, c: ClientId, move: ClientMove)
    requires Enabled(st, ClientStep(c, move))
    ensures Measure(ApplyClient(st, c, move)) < Measure(st)
  {
    var st' := ApplyClient(st, c, move);
    ClientsRankUpdate(st.clients, c, st'.clients[c]);
    SegsRankAgree(st.segs, st'.segs);
  }

  lemma GetOrCreateDescends(st: State, c: ClientId, buildOk: bool)
    requires Enabled(st, GetOrCreate(c, buildOk))
    ensures Measure(ApplyGetOrCreate(st, c, buildOk)) < Measure(st)
  {
    var st' := ApplyGetOrCreate(st, c, buildOk);
    ClientsRankUpdate(st.clients, c, st'.clients[c]);
    if st'.segs != st.segs {
      assert st'.segs[..|st.segs|] == st.segs;
    }
  }

  lemma EvictDescends(st: State, c: ClientId)
    requires Ownership(st) && Enabled(st, EvictKey(c))
    ensures Measure(ApplyEvictKey(st, c)) < Measure(st)
  {
    var st', s := ApplyEvictKey(st, c), st.clients[c].pc.seg;
    assert ClientOk(st, c);
    ClientsRankUpdate(st.clients, c, st'.clients[c]);
    SegsRankUpdate(st.segs, s, st'.segs[s]);
  }

  lemma TakeDescends(st: State, c: ClientId)
    requires Ownership(st) && Enabled(st, TakePermit(c))
    ensures Measure(Apply(st, TakePermit(c))) < Measure(st)
  {
    var st', s := Apply(st, TakePermit(c)), st.clients[c].pc.seg;
    assert ClientOk(st, c);
    ClientsRankUpdate(st.clients, c, st'.clients[c]);
    SegsRankUpdate(st.segs, s, st'.segs[s]);
  }

  lemma StopDescends(st: State, s: SegId, cancel: bool)
    requires Ownership(st) && s < |st.segs|
    requires Enabled(st, if cancel then StopCancel(s) else StopNotify(s))
    ensures Measure(ApplyStop(st, s, cancel)) < Measure(st)
  {
    var st' := ApplyStop(st, s, cancel);
    assert SegOk(st, s);
    assert st'.segs == st.segs[s := st'.segs[s]];
    SegsRankUpdate(st.segs, s, st'.segs[s]);
  }

  lemma OwnerStepDescends(st: State, s: SegId, act: OwnerMove)
    requires Inv(st) && Enabled(st, OwnerStep(s, act))
    ensures Measure(Apply(st, OwnerStep(s, act))) < Measure(st)
  {
    assert CancelOk(st.segs[s]);
    SegsRankUpdate(st.segs, s, Act(st.segs[s], act));
  }

  lemma GiveDescends(st: State, s: SegId)
    requires Enabled(st, GivePermit(s))
    ensures Measure(Apply(st, GivePermit(s))) < Measure(st)
  {
    SegsRankUpdate(st.segs, s, Apply(st, GivePermit(s)).segs[s]);
  }

  lemma RemoveDescends(st: State, s: SegId)
    requires Enabled(st, RemoveKey(s))
    ensures Measure(Apply(st, RemoveKey(s))) < Measure(st)
  {
    SegsRankUpdate(st.segs, s, Apply(st, RemoveKey(s)).segs[s]);
  }

  /** Every step except an arrival makes the measure smaller. */
  lemma StepDescends(st: State, step: Step)
    requires Inv(st) && Enabled(st, step) && !step.Arrive?
    ensures Measure(Apply(st, step)) < Measure(st)
  {
    match step {
      case GetOrCreate(c, buildOk) => GetOrCreateDescends(st, c, buildOk);
      case TakePermit(c) => TakeDescends(st, c);
      case EvictKey(c) => EvictDescends(st, c);
      case ClientStep(c, move) => ClientStepDescends(st, c, move);
      case StopCancel(s) => StopDescends(st, s, true);
      case StopNotify(s) => StopDescends(st, s, false);
      case OwnerStep(s, act) => OwnerStepDescends(st, s, act);
      case GivePermit(s) => GiveDescends(st, s);
      case RemoveKey(s) => RemoveDescends(st, s);
    }
  }

  // ---------- Where executions may rest ----------

  /**
   Steps the environment owes. A client that waits is eventually cancelled or served, and a reader is
   eventually closed; a process is owed to exit only once it has been cancelled.
   */
  predicate Owed(st: State, step: Step)
    requires Enabled(st, step)
  {
    match step
    case Arrive(_, _) => false
    case OwnerStep(s, act) => act.ExitProcess? ==> st.segs[s].procCancelled
    case _ => true
  }

  ghost predicate AtRest(st: State) {
    forall step | Enabled(st, step) :: !Owed(st, step)
  }

  /** Every call has returned and every reader is closed, the map is empty, and no permit is taken. */
  ghost predicate Reclaimed(st: State) {
    && (forall c | 0 <= c < |st.clients| :: st.clients[c].pc.Done?)
    && (forall s | 0 <= s < |st.segs| :: st.segs[s].phase.Gone? || st.segs[s].phase.Evicted?)
    && st.pool == map[]
    && forall m <- st.used :: st.used[m] == 0
  }

  /** No readiness poll is still running. */
  ghost predicate AllPollsDone(st: State) {
    forall s | 0 <= s < |st.segs| :: !st.segs[s].polling
  }

  /** A client that has not finished always has a step it is owed. */
  lemma ClientHasStep(st: State, c: ClientId) returns (step: Step)
    requires Inv(st) && c < |st.clients| && !st.clients[c].pc.Done?
    ensures Enabled(st, step) && Owed(st, step)
  {
    assert ClientOk(st, c);
    step := match st.clients[c].pc
      case Lookup => GetOrCreate(c, false)
      case Acquire(_) => ClientStep(c, PermitTimeout)
      case Evict(_) => EvictKey(c)
      case EvictCancel(_, _) => ClientStep(c, CancelFound)
      case EvictNotify(_, _) => ClientStep(c, NotifyFound)
      case Join(_) => ClientStep(c, AddClient)
      case Wait(_) => ClientStep(c, SeeCancelled)
      case Read(_) => ClientStep(c, CloseReader)
      case Leave(_, _) => ClientStep(c, DropClient)
      case _ => ClientStep(c, NotifyEmpty);
  }

  /** When all clients are done, emptiness of every segmenter that was not evicted has been announced. */
  lemma AbandonedIsAnnounced(st: State, s: SegId)
    requires Inv(st) && s < |st.segs| && !st.segs[s].phase.Evicted?
    requires forall c | 0 <= c < |st.clients| :: st.clients[c].pc.Done?
    ensures st.segs[s].signals.empty
  {
    forall c | 0 <= c < |st.clients| ensures !Counted(st.clients[c].pc, s) {
      assert ClientOk(st, c);
    }
    NobodyRegistered(st.clients, s);
  }

  /** With all clients done, an owner that has not finished has a step it is owed. */
  lemma OwnerHasStep(st: State, s: SegId) returns (step: Step)
    requires Inv(st) && s < |st.segs| && !st.segs[s].phase.Evicted? && !st.segs[s].phase.Gone?
    requires forall c | 0 <= c < |st.clients| :: st.clients[c].pc.Done?
    ensures Enabled(st, step) && Owed(st, step)
  {
    var seg := st.segs[s];
    assert SegOk(st, s);
    AbandonedIsAnnounced(st, s);
    step := match seg.phase
      case Spawned => OwnerStep(s, FailToStart)
      case Live => if seg.procCancelled then OwnerStep(s, ExitProcess(true)) else OwnerStep(s, Watch)
      case Exited(_) => OwnerStep(s, ReportExit)
      case Lingering => OwnerStep(s, WakeOwner)
      case Releasing => GivePermit(s)
      case Removing => RemoveKey(s)
      case Stopping(_) => StopCancel(s)
      case _ => StopNotify(s);
  }

  lemma NothingLinkedNothingMapped(st: State)
    requires Ownership(st) && forall s | 0 <= s < |st.segs| :: !Linked(st.segs[s].phase)
    ensures st.pool == map[]
  {
    assert forall k :: k !in st.pool;
  }

  /** An execution can come to rest only when everything is reclaimed. */
  lemma RestMeansReclaimed(st: State)
    requires Inv(st) && AtRest(st)
    ensures Reclaimed(st)
  {
    forall c | 0 <= c < |st.clients| ensures st.clients[c].pc.Done? {
      if !st.clients[c].pc.Done? {
        var step := ClientHasStep(st, c);
      }
    }
    forall s | 0 <= s < |st.segs| ensures st.segs[s].phase.Gone? || st.segs[s].phase.Evicted? {
      if !st.segs[s].phase.Gone? && !st.segs[s].phase.Evicted? {
        var step := OwnerHasStep(st, s);
      }
    }
    NothingLinkedNothingMapped(st);
    forall m <- st.used ensures st.used[m] == 0 {
      NobodyHolds(st.segs, m);
    }
  }

  ghost predicate NoArrivals(steps: seq<Step>, from: nat) {
    forall i | from <= i < |steps| :: !steps[i].Arrive?
  }

  /** After arrivals stop at position `from`, a run has at most `Measure` further steps. */
  lemma {:induction false} RunsAreBounded(states: seq<State>, steps: seq<Step>, from: nat, n: nat)
    requires IsRun(states, steps) && Initial(states[0]) && from <= n < |states| && NoArrivals(steps, from)
    ensures Measure(states[n]) + (n - from) <= Measure(states[from])
  {
    if from < n {
      RunsAreBounded(states, steps, from, n - 1);
      EveryRunIsSafe(states, steps, n - 1);
      StepDescends(states[n - 1], steps[n - 1]);
    }
  }

  /**
   Reclamation: take any run, and let no request arrive after position `from`. It is at most
   `Measure(states[from])` steps longer, and if it cannot be continued by an owed step then every
   client is done, the map is empty and all permits are back. No assumption is made on when
   joins and departures happened.
   */
  lemma Reclamation(states: seq<State>, steps: seq<Step>, from: nat)
    requires IsRun(states, steps) && Initial(states[0]) && from < |states| && NoArrivals(steps, from)
    ensures |steps| - from <= Measure(states[from])
    ensures AtRest(states[|steps|]) <==> Reclaimed(states[|steps|]) && AllPollsDone(states[|steps|])
  {
    var last := states[|steps|];
    EveryRunIsSafe(states, steps, |steps|);
    RunsAreBounded(states, steps, from, |steps|);
    if AtRest(last) {
      RestMeansReclaimed(last);
      forall s | 0 <= s < |last.segs| && last.segs[s].polling ensures false {
        var step := OwnerStep(s, ReportPoll(None));
        assert Enabled(last, step);
      }
    }
  }


  /** Every reachable state can be completed: owed steps lead to a reclaimed state. */
  lemma {:induction false} ReclaimingContinuation(st: State) returns (states: seq<State>, steps: seq<Step>)
    requires Inv(st)
    ensures IsRun(states, steps) && states[0] == st && NoArrivals(steps, 0)
    ensures Inv(states[|steps|]) && Reclaimed(states[|steps|])
    decreases Measure(st)
  {
    if AtRest(st) {
      RestMeansReclaimed(st);
      return [st], [];
    }
    var step :| Enabled(st, step) && Owed(st, step);
    StepKeepsInv(st, step);
    StepDescends(st, step);
    var states', steps' := ReclaimingContinuation(Apply(st, step));
    states, steps := [st] + states', [step] + steps';
    assert states[|steps|] == states'[|steps'|];
    forall i | 0 <= i < |steps| ensures Enabled(states[i], steps[i]) && states[i + 1] == Apply(states[i], steps[i]) {
      if i > 0 {
        assert states[i] == states'[i - 1] && steps[i] == steps'[i - 1];
      }
    }
  }
}

/**
 The stream pool as a step machine (internal/streampool/streampool.go). Clients run
 `GetReader` and then `Close`; every acquired segmenter is owned by a background
 `runSegmenter`; the process, its readiness poll and the goroutine that watches
 `emptyChan` take steps of their own. One step is one access to shared state, so
 the registration of a joiner is separate from its lookup, and the permit is
 returned before the segmenter leaves the map. `Stop` is not a step.
 */
module StreamPool {
  import opened Basics
  import opened Segmenters

  type Key = string
  type Sem = nat
  type SegId = nat      // position in State.segs: the identity of a segmenter object
  type ClientId = nat   // position in State.clients: one call of GetReader

  datatype Exit = CreateFailed | NoPermit(seg: SegId) | Abandoned | StartFailed | Closed

  /** Where a client is in `GetReader`, or in `Close` of the reader it got. */
  datatype Pc =
    | Lookup                                    // about to call getOrCreate
    | Acquire(seg: SegId)                       // created it; waiting for a permit
    | Evict(seg: SegId)                         // no permit: about to unlink the key
    | EvictCancel(seg: SegId, found: SegId)     // unlinked `found`; about to cancel it
    | EvictNotify(seg: SegId, found: SegId)     // about to announce it empty
    | Join(seg: SegId)                          // found it; about to count itself
    | Wait(seg: SegId)                          // waiting for ready or for its own context
    | Read(seg: SegId)                          // has a reader
    | Leave(seg: SegId, exit: Exit)             // about to decrement the counter
    | Notify(seg: SegId, exit: Exit)            // decremented it to zero or less
    | Done(exit: Exit)

  datatype Client = Client(key: Key, sem: Option<Sem>, pc: Pc)

  /** Where the owner of a segmenter is. */
  datatype Phase =
    | Reserved                      // no owner yet: the creator has no permit
    | Spawned                       // owner started, process not
    | Live                          // the segmenter process runs
    | Exited(failed: bool)          // Run returned
    | Lingering                     // blocked on emptyChan
    | Releasing                     // about to return the permit
    | Removing                      // about to unlink the key
    | Stopping(found: SegId)        // unlinked `found`; about to cancel it
    | Notifying(found: SegId)       // about to announce it empty
    | Gone
    | Evicted                       // unlinked by the creator, never owned

  datatype Seg = Seg(
    key: Key,
    sem: Option<Sem>,
    creator: ClientId,
    signals: Signals,
    procCancelled: bool,   // segCtx, the context of the process, is cancelled
    polling: bool,         // waitForSegments runs
    phase: Phase)

  datatype State = State(
    clients: seq<Client>,
    segs: seq<Seg>,
    pool: map<Key, SegId>,
    used: map<Sem, nat>,   // permits taken
    cap: map<Sem, nat>)    // size of each semaphore

  /** Moves of a client that change its own counter and at most the signals of one segmenter. */
  datatype ClientMove =
    | PermitTimeout   // the permit did not come in time
    | CancelFound     // stop(): cancel the unlinked segmenter
    | NotifyFound     // stop(): announce it empty; GetReader fails for want of a permit
    | AddClient       // a joiner counts itself
    | SeeReady        // ready is closed: look at startErr
    | SeeCancelled    // the client's own context is done
    | CloseReader     // the first Close
    | DropClient      // removeClient: the atomic decrement
    | NotifyEmpty     // removeClient: the announcement it obliges to

  predicate CanMove(pc: Pc, signals: Signals, move: ClientMove) {
    match move
    case PermitTimeout => pc.Acquire?
    case CancelFound => pc.EvictCancel?
    case NotifyFound => pc.EvictNotify?
    case AddClient => pc.Join?
    case SeeReady => pc.Wait? && signals.ready
    case SeeCancelled => pc.Wait?
    case CloseReader => pc.Read?
    case DropClient => pc.Leave?
    case NotifyEmpty => pc.Notify?
  }

  function NextSignals(signals: Signals, move: ClientMove): Signals {
    match move
    case CancelFound => signals.Cancel()
    case NotifyFound => signals.NotifyEmpty()
    case AddClient => signals.AddClient()
    case DropClient => signals.DropClient()
    case NotifyEmpty => signals.NotifyEmpty()
    case _ => signals
  }

  /** `signals` are those of the segmenter before the move. */
  function NextPc(pc: Pc, signals: Signals, move: ClientMove): Pc
    requires CanMove(pc, signals, move)
  {
    match move
    case PermitTimeout => Evict(pc.seg)
    case CancelFound => EvictNotify(pc.seg, pc.found)
    case NotifyFound => Done(NoPermit(pc.seg))
    case AddClient => Wait(pc.seg)
    case SeeReady => if signals.startErr.Some? then Leave(pc.seg, StartFailed) else Read(pc.seg)
    case SeeCancelled => Leave(pc.seg, Abandoned)
    case CloseReader => Leave(pc.seg, Closed)
    case DropClient => if signals.DropClient().clients <= 0 then Notify(pc.seg, pc.exit) else Done(pc.exit)
    case NotifyEmpty => Done(pc.exit)
  }

  /** The segmenter a client works on: once it has unlinked one, the one it unlinked. */
  function Target(pc: Pc): SegId
    requires !pc.Lookup? && !pc.Done?
  {
    if pc.EvictCancel? || pc.EvictNotify? then pc.found else pc.seg
  }

  /** Moves of an owner, its process, its poll and its watcher that change one segmenter only. */
  datatype OwnerMove =
    | StartProcess
    | FailToStart
    | ExitProcess(failed: bool)
    | ReportExit                              // start() after Run: setReady
    | ReportPoll(err: Option<StartError>)     // waitForSegments: setReady
    | Watch                                   // emptyChan closed: cancel the process
    | WakeOwner                               // emptyChan closed: unwind, cancelling the process first

  predicate CanAct(seg: Seg, move: OwnerMove) {
    match move
    case StartProcess => seg.phase.Spawned?
    case FailToStart => seg.phase.Spawned?
    case ExitProcess(_) => seg.phase.Live?
    case ReportExit => seg.phase.Exited?
    case ReportPoll(err) =>
      seg.polling && (err.None? || err.value.ReadyTimeout? || (err.value.ContextCancelled? && seg.signals.cancelled))
    case Watch =>
      && seg.signals.empty && !seg.procCancelled
      && (seg.phase.Spawned? || seg.phase.Live? || seg.phase.Exited? || seg.phase.Lingering?)
    case WakeOwner => seg.phase.Lingering? && seg.signals.empty
  }

  function Act(seg: Seg, move: OwnerMove): Seg
    requires CanAct(seg, move)
  {
    match move
    case StartProcess => seg.(phase := Live, polling := true)
    case FailToStart => seg.(phase := Exited(true), polling := true)
    case ExitProcess(failed) => seg.(phase := Exited(failed))
    case ReportExit =>
      var err := if seg.phase.failed && !seg.procCancelled then Some(ProcessFailed) else None;
      seg.(phase := Lingering, signals := seg.signals.SetReady(err))
    case ReportPoll(err) => seg.(polling := false, signals := seg.signals.SetReady(err))
    case Watch => seg.(procCancelled := true)
    case WakeOwner => seg.(procCancelled := true, phase := Releasing)
  }

  datatype Step =
    | Arrive(key: Key, sem: Option<Sem>)
    | GetOrCreate(c: ClientId, buildOk: bool)
    | TakePermit(c: ClientId)
    | EvictKey(c: ClientId)                       // remove(key), locked part, by a creator without permit
    | ClientStep(c: ClientId, move: ClientMove)
    | OwnerStep(s: SegId, act: OwnerMove)
    | GivePermit(s: SegId)
    | RemoveKey(s: SegId)                         // remove(key), locked part, by the owner
    | StopCancel(s: SegId)                        // stop() of what the owner unlinked
    | StopNotify(s: SegId)

  predicate CanTake(st: State, sem: Option<Sem>) {
    sem.None? || (sem.value in st.cap && sem.value in st.used && st.used[sem.value] < st.cap[sem.value])
  }

  function Take(used: map<Sem, nat>, sem: Option<Sem>): map<Sem, nat> {
    if sem.Some? && sem.value in used then used[sem.value := used[sem.value] + 1] else used
  }

  function Give(used: map<Sem, nat>, sem: Option<Sem>): map<Sem, nat> {
    if sem.Some? && sem.value in used && used[sem.value] > 0 then used[sem.value := used[sem.value] - 1] else used
  }

  predicate Enabled(st: State, step: Step) {
    match step
    case Arrive(_, sem) => sem.None? || sem.value in st.cap
    case GetOrCreate(c, _) => c < |st.clients| && st.clients[c].pc.Lookup?
    case TakePermit(c) =>
      c < |st.clients| && st.clients[c].pc.Acquire? && st.clients[c].pc.seg < |st.segs|
          && CanTake(st, st.clients[c].sem)
    case EvictKey(c) => c < |st.clients| && st.clients[c].pc.Evict? && st.clients[c].pc.seg < |st.segs|
    case ClientStep(c, move) =>
      && c < |st.clients| && !st.clients[c].pc.Lookup? && !st.clients[c].pc.Done?
      && Target(st.clients[c].pc) < |st.segs|
      && CanMove(st.clients[c].pc, st.segs[Target(st.clients[c].pc)].signals, move)
    case OwnerStep(s, act) => s < |st.segs| && CanAct(st.segs[s], act)
    case GivePermit(s) => s < |st.segs| && st.segs[s].phase.Releasing?
    case RemoveKey(s) => s < |st.segs| && st.segs[s].phase.Removing?
    case StopCancel(s) => s < |st.segs| && st.segs[s].phase.Stopping? && st.segs[s].phase.found < |st.segs|
    case StopNotify(s) => s < |st.segs| && st.segs[s].phase.Notifying? && st.segs[s].phase.found < |st.segs|
  }

  function SetPc(st: State, c: ClientId, pc: Pc): seq<Client>
    requires c < |st.clients|
  {
    st.clients[c := st.clients[c].(pc := pc)]
  }

  function Apply(st: State, step: Step): State
    requires Enabled(st, step)
  {
    match step
    case Arrive(key, sem) => st.(clients := st.clients + [Client(key, sem, Lookup)])
    case GetOrCreate(c, buildOk) => ApplyGetOrCreate(st, c, buildOk)
    case TakePermit(c) =>
      var s := st.clients[c].pc.seg;
      st.(clients := SetPc(st, c, Wait(s)),
          segs := st.segs[s := st.segs[s].(phase := Spawned)],
          used := Take(st.used, st.clients[c].sem))
    case EvictKey(c) => ApplyEvictKey(st, c)
    case ClientStep(c, move) => ApplyClient(st, c, move)
    case OwnerStep(s, act) => st.(segs := st.segs[s := Act(st.segs[s], act)])
    case GivePermit(s) =>
      st.(segs := st.segs[s := st.segs[s].(phase := Removing)], used := Give(st.used, st.segs[s].sem))
    case RemoveKey(s) => ApplyRemoveKey(st, s)
    case StopCancel(s) => ApplyStop(st, s, true)
    case StopNotify(s) => ApplyStop(st, s, false)
  }

  function ApplyClient(st: State, c: ClientId, move: ClientMove): State
    requires Enabled(st, ClientStep(c, move))
  {
    var pc := st.clients[c].pc;
    var seg := st.segs[Target(pc)];
    st.(clients := SetPc(st, c, NextPc(pc, seg.signals, move)),
        segs := st.segs[Target(pc) := seg.(signals := NextSignals(seg.signals, move))])
  }

  /** `getOrCreate`: join what the key maps to, else build and link a new segmenter. */
  function ApplyGetOrCreate(st: State, c: ClientId, buildOk: bool): State
    requires c < |st.clients|
  {
    var client := st.clients[c];
    if client.key in st.pool then st.(clients := SetPc(st, c, Join(st.pool[client.key])))
    else if !buildOk then st.(clients := SetPc(st, c, Done(CreateFailed)))
    else
      st.(clients := SetPc(st, c, Acquire(|st.segs|)),
          segs := st.segs + [Seg(client.key, client.sem, c, FRESH, false, false, Reserved)],
          pool := st.pool[client.key := |st.segs|])
  }

  /** The locked part of `remove(key)`: unlink whatever the key maps to, to stop it afterwards. */
  function ApplyEvictKey(st: State, c: ClientId): State
    requires c < |st.clients| && st.clients[c].pc.Evict? && st.clients[c].pc.seg < |st.segs|
  {
    var s, key := st.clients[c].pc.seg, st.clients[c].key;
    st.(clients := SetPc(st, c, if key in st.pool then EvictCancel(s, st.pool[key]) else Done(NoPermit(s))),
        segs := st.segs[s := st.segs[s].(phase := Evicted)],
        pool := st.pool - {key})
  }

  function ApplyRemoveKey(st: State, s: SegId): State
    requires s < |st.segs|
  {
    var key := st.segs[s].key;
    var phase := if key in st.pool then Stopping(st.pool[key]) else Gone;
    st.(segs := st.segs[s := st.segs[s].(phase := phase)], pool := st.pool - {key})
  }

  /** The two halves of `stop`, on the segmenter the owner found under its key. */
  function ApplyStop(st: State, s: SegId, cancel: bool): State
    requires s < |st.segs|
    requires if cancel then st.segs[s].phase.Stopping? else st.segs[s].phase.Notifying?
    requires st.segs[s].phase.found < |st.segs|
  {
    var t := st.segs[s].phase.found;
    var signals := if cancel then st.segs[t].signals.Cancel() else st.segs[t].signals.NotifyEmpty();
    var segs := st.segs[t := st.segs[t].(signals := signals)];
    st.(segs := segs[s := segs[s].(phase := if cancel then Notifying(t) else Gone)])
  }

  /** No client has arrived and every semaphore is free. */
  predicate Initial(st: State) {
    && st.clients == [] && st.segs == [] && st.pool == map[]
    && st.used.Keys == st.cap.Keys && forall m <- st.used :: st.used[m] == 0
  }

  /** `states` is an execution that takes the given steps. */
  ghost predicate IsRun(states: seq<State>, steps: seq<Step>) {
    && |states| == |steps| + 1
    && forall i | 0 <= i < |steps| :: Enabled(states[i], steps[i]) && states[i + 1] == Apply(states[i], steps[i])
  }
}

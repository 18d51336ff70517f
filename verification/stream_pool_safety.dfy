/**
 What every reachable state of the stream pool satisfies: ownership of the map,
 conservation of permits, and exact accounting of clients.
 */
module StreamPoolSafety {
  import opened Basics
  import opened Segmenters
  import opened StreamPool

  // ---------- Counting ----------

  /**
   A client is counted by segmenter `s` from its registration to its decrement; one evicted for
   want of a permit stays counted.
   */
  predicate Counted(pc: Pc, s: SegId) {
    match pc
    case Acquire(t) => t == s
    case Evict(t) => t == s
    case EvictCancel(t, _) => t == s
    case EvictNotify(t, _) => t == s
    case Wait(t) => t == s
    case Read(t) => t == s
    case Leave(t, _) => t == s
    case Done(exit) => exit == NoPermit(s)
    case _ => false
  }

  function Registered(clients: seq<Client>, s: SegId): nat {
    if clients == [] then 0
    else Registered(clients[..|clients| - 1], s) + if Counted(clients[|clients| - 1].pc, s) then 1 else 0
  }

  /** The owner holds its permit from its start until it gives it back. */
  predicate Holding(phase: Phase) {
    phase.Spawned? || phase.Live? || phase.Exited? || phase.Lingering? || phase.Releasing?
  }

  predicate Holds(seg: Seg, m: Sem) {
    seg.sem == Some(m) && Holding(seg.phase)
  }

  function Holders(segs: seq<Seg>, m: Sem): nat {
    if segs == [] then 0
    else Holders(segs[..|segs| - 1], m) + if Holds(segs[|segs| - 1], m) then 1 else 0
  }

  predicate Running(seg: Seg, m: Sem) {
    seg.sem == Some(m) && seg.phase.Live?
  }

  /** Live processes that run under semaphore `m`. */
  function Processes(segs: seq<Seg>, m: Sem): nat {
    if segs == [] then 0
    else Processes(segs[..|segs| - 1], m) + if Running(segs[|segs| - 1], m) then 1 else 0
  }

  lemma {:induction false} RegisteredUpdate(clients: seq<Client>, c: ClientId, client: Client, s: SegId)
    requires c < |clients|
    ensures Registered(clients[c := client], s) + (if Counted(clients[c].pc, s) then 1 else 0)
         == Registered(clients, s) + if Counted(client.pc, s) then 1 else 0
  {
    var n := |clients| - 1;
    if c == n {
      assert clients[c := client][..n] == clients[..n];
    } else {
      assert clients[c := client][..n] == clients[..n][c := client];
      RegisteredUpdate(clients[..n], c, client, s);
    }
  }

  lemma {:induction false} HoldersUpdate(segs: seq<Seg>, i: SegId, seg: Seg, m: Sem)
    requires i < |segs|
    ensures Holders(segs[i := seg], m) + (if Holds(segs[i], m) then 1 else 0)
         == Holders(segs, m) + if Holds(seg, m) then 1 else 0
  {
    var n := |segs| - 1;
    if i == n {
      assert segs[i := seg][..n] == segs[..n];
    } else {
      assert segs[i := seg][..n] == segs[..n][i := seg];
      HoldersUpdate(segs[..n], i, seg, m);
    }
  }

  lemma {:induction false} ProcessesAtMostHolders(segs: seq<Seg>, m: Sem)
    ensures Processes(segs, m) <= Holders(segs, m)
  {
    if segs != [] {
      ProcessesAtMostHolders(segs[..|segs| - 1], m);
    }
  }

  lemma {:induction false} NobodyRegistered(clients: seq<Client>, s: SegId)
    requires forall c | 0 <= c < |clients| :: !Counted(clients[c].pc, s)
    ensures Registered(clients, s) == 0
  {
    if clients != [] {
      NobodyRegistered(clients[..|clients| - 1], s);
    }
  }

  lemma {:induction false} NobodyHolds(segs: seq<Seg>, m: Sem)
    requires forall s | 0 <= s < |segs| :: !Holds(segs[s], m)
    ensures Holders(segs, m) == 0
  {
    if segs != [] {
      NobodyHolds(segs[..|segs| - 1], m);
    }
  }

  // ---------- The invariant ----------

  /** Phases in which the segmenter is linked in the map. */
  predicate Linked(phase: Phase) {
    phase.Reserved? || Holding(phase) || phase.Removing?
  }

  /** What a client's program counter says about the segmenter it names. */
  predicate ClientOk(st: State, c: ClientId)
    requires c < |st.clients|
  {
    var client := st.clients[c];
    && (client.sem.Some? ==> client.sem.value in st.cap)
    && match client.pc
       case Acquire(s) => s < |st.segs| && st.segs[s].phase == Reserved && st.segs[s].creator == c
       case Evict(s) => s < |st.segs| && st.segs[s].phase == Reserved && st.segs[s].creator == c
       case EvictCancel(s, t) => s < |st.segs| && st.segs[s].phase == Evicted && t == s
       case EvictNotify(s, t) => s < |st.segs| && st.segs[s].phase == Evicted && t == s
       case Join(s) => s < |st.segs|
       case Wait(s) => s < |st.segs|
       case Read(s) => s < |st.segs|
       case Leave(s, exit) => s < |st.segs| && !exit.NoPermit? && !exit.CreateFailed?
       case Notify(s, exit) => s < |st.segs| && !exit.NoPermit? && !exit.CreateFailed?
       case Done(exit) => exit.NoPermit? ==> exit.seg < |st.segs| && st.segs[exit.seg].phase == Evicted
       case _ => true
  }

  predicate SegOk(st: State, s: SegId)
    requires s < |st.segs|
  {
    var seg := st.segs[s];
    && seg.creator < |st.clients|
    && st.clients[seg.creator].key == seg.key && st.clients[seg.creator].sem == seg.sem
    && (seg.sem.Some? ==> seg.sem.value in st.cap)
    && (seg.phase.Reserved? ==> st.clients[seg.creator].pc == Acquire(s) || st.clients[seg.creator].pc == Evict(s))
    && (Linked(seg.phase) ==> seg.key in st.pool && st.pool[seg.key] == s)
    && (seg.phase.Stopping? || seg.phase.Notifying? ==> seg.phase.found == s)
  }

  /** The map links a key to its one linked segmenter, and to no other. */
  ghost predicate Ownership(st: State) {
    && (forall k <- st.pool ::
          st.pool[k] < |st.segs| && st.segs[st.pool[k]].key == k && Linked(st.segs[st.pool[k]].phase))
    && (forall s | 0 <= s < |st.segs| :: SegOk(st, s))
    && (forall c | 0 <= c < |st.clients| :: ClientOk(st, c))
  }

  ghost predicate Accounting(st: State) {
    forall s | 0 <= s < |st.segs| :: st.segs[s].signals.clients == Registered(st.clients, s)
  }

  ghost predicate Permits(st: State) {
    && st.used.Keys == st.cap.Keys
    && forall m <- st.cap :: st.used[m] == Holders(st.segs, m) <= st.cap[m]
  }

  ghost predicate AboutToNotify(st: State, s: SegId) {
    exists c :: 0 <= c < |st.clients| && st.clients[c].pc.Notify? && st.clients[c].pc.seg == s
  }

  /** A counter at zero is announced, or some client is about to announce it. */
  ghost predicate Emptying(st: State) {
    forall s | 0 <= s < |st.segs| && st.segs[s].signals.clients <= 0 :: st.segs[s].signals.empty || AboutToNotify(st, s)
  }

  /** The owner has reported the outcome of the process. */
  predicate Finished(phase: Phase) {
    phase.Lingering? || phase.Releasing? || phase.Removing? || phase.Stopping? || phase.Notifying? || phase.Gone?
  }

  /** Before the owner unwinds, the process context is cancelled only once emptiness was announced. */
  predicate CancelOk(seg: Seg) {
    && (seg.procCancelled ==> seg.signals.empty)
    && (seg.phase.Reserved? || seg.phase.Evicted? ==> !seg.procCancelled && !seg.polling)
    && (seg.phase.Spawned? ==> !seg.polling)
    && (seg.phase.Reserved? || seg.phase.Spawned? || seg.phase.Evicted? ==> !seg.signals.ready)
    && (Finished(seg.phase) ==> seg.signals.ready)
    && (seg.phase.Live? || seg.phase.Exited? ==> (seg.signals.ready <==> !seg.polling))
  }

  ghost predicate Cancelling(st: State) {
    forall s | 0 <= s < |st.segs| :: CancelOk(st.segs[s])
  }

  ghost predicate Inv(st: State) {
    Ownership(st) && Accounting(st) && Permits(st) && Emptying(st) && Cancelling(st)
  }

  // ---------- Preservation ----------

  lemma InitialInv(st: State)
    requires Initial(st)
    ensures Inv(st)
  {
  }

  predicate SameShape(a: Seg, b: Seg) {
    a.key == b.key && a.sem == b.sem && a.creator == b.creator && a.phase == b.phase
  }

  /** Steps in which one client moves and segmenters change at most their signals. */
  lemma ClientMoves(st: State, st': State, c: ClientId)
    requires Ownership(st)
    requires st'.pool == st.pool && st'.cap == st.cap && |st'.segs| == |st.segs|
    requires forall s | 0 <= s < |st.segs| :: SameShape(st.segs[s], st'.segs[s])
    requires c < |st.clients| == |st'.clients|
    requires forall d | 0 <= d < |st.clients| && d != c :: st'.clients[d] == st.clients[d]
    requires st'.clients[c] == st.clients[c].(pc := st'.clients[c].pc) && ClientOk(st', c)
    requires st.clients[c].pc.Acquire? || st.clients[c].pc.Evict? ==> st'.clients[c].pc == Evict(st.clients[c].pc.seg)
    ensures Ownership(st')
  {
    forall s | 0 <= s < |st.segs| ensures SegOk(st', s) {
      assert SegOk(st, s);
    }
    forall d | 0 <= d < |st.clients| ensures ClientOk(st', d) {
      assert ClientOk(st, d);
    }
    forall k <- st'.pool
      ensures st'.pool[k] < |st'.segs| && st'.segs[st'.pool[k]].key == k && Linked(st'.segs[st'.pool[k]].phase)
    {
      assert SameShape(st.segs[st.pool[k]], st'.segs[st.pool[k]]);
    }
  }

  /** Steps in which an owner moves on without touching the map, and any segmenter may change its signals. */
  lemma OwnerMoves(st: State, st': State, s: SegId)
    requires Ownership(st)
    requires st'.pool == st.pool && st'.cap == st.cap && st'.clients == st.clients
    requires s < |st.segs| == |st'.segs|
    requires forall t | 0 <= t < |st.segs| && t != s :: SameShape(st.segs[t], st'.segs[t])
    requires SameShape(st.segs[s].(phase := st'.segs[s].phase), st'.segs[s])
    requires st'.segs[s].phase == st.segs[s].phase
      || ((Linked(st.segs[s].phase) <==> Linked(st'.segs[s].phase))
          && !st.segs[s].phase.Reserved? && !st.segs[s].phase.Evicted? && !st'.segs[s].phase.Reserved?)
    requires SegOk(st', s)
    ensures Ownership(st')
  {
    forall t | 0 <= t < |st.segs| ensures SegOk(st', t) {
      assert SegOk(st, t);
    }
    forall d | 0 <= d < |st.clients| ensures ClientOk(st', d) {
      assert ClientOk(st, d);
    }
    forall k <- st'.pool
      ensures st'.pool[k] < |st'.segs| && st'.segs[st'.pool[k]].key == k && Linked(st'.segs[st'.pool[k]].phase)
    {
      assert st.pool[k] != s ==> SameShape(st.segs[st.pool[k]], st'.segs[st.pool[k]]);
    }
  }

  /** A segmenter leaves the map: through its own key, so nobody else is unlinked. */
  lemma Unlinks(st: State, st': State, s: SegId)
    requires Ownership(st) && s < |st.segs| == |st'.segs| && Linked(st.segs[s].phase) && !Linked(st'.segs[s].phase)
    requires st'.segs == st.segs[s := st.segs[s].(phase := st'.segs[s].phase)]
    requires st'.pool == st.pool - {st.segs[s].key} && st'.cap == st.cap
    requires |st'.clients| == |st.clients|
    requires forall d | 0 <= d < |st.clients| :: st'.clients[d] == st.clients[d].(pc := st'.clients[d].pc)
    requires forall d | 0 <= d < |st.clients| && st.clients[d].pc != st'.clients[d].pc :: st.clients[d].pc == Evict(s)
    requires st'.segs[s].phase.Stopping? || st'.segs[s].phase.Notifying? ==> st'.segs[s].phase.found == s
    ensures forall t | 0 <= t < |st.segs| :: SegOk(st', t)
    ensures forall k <- st'.pool ::
      st'.pool[k] < |st'.segs| && st'.segs[st'.pool[k]].key == k && Linked(st'.segs[st'.pool[k]].phase)
  {
    assert SegOk(st, s);
    forall t | 0 <= t < |st.segs| ensures SegOk(st', t) {
      assert SegOk(st, t);
    }
  }

  /** A creator without permit finds its own segmenter under its key. */
  lemma EvictKeepsOwnership(st: State, c: ClientId)
    requires Ownership(st) && Enabled(st, EvictKey(c))
    ensures st.clients[c].key in st.pool && st.pool[st.clients[c].key] == st.clients[c].pc.seg
    ensures Ownership(Apply(st, EvictKey(c)))
  {
    var s, st' := st.clients[c].pc.seg, Apply(st, EvictKey(c));
    assert ClientOk(st, c) && SegOk(st, s);
    Unlinks(st, st', s);
    forall d | 0 <= d < |st.clients| ensures ClientOk(st', d) {
      assert ClientOk(st, d);
    }
  }

  /** An owner finds its own segmenter under its key. */
  lemma RemoveKeepsOwnership(st: State, s: SegId)
    requires Ownership(st) && Enabled(st, RemoveKey(s))
    ensures st.segs[s].key in st.pool && st.pool[st.segs[s].key] == s
    ensures Ownership(Apply(st, RemoveKey(s)))
  {
    var st' := Apply(st, RemoveKey(s));
    assert SegOk(st, s);
    Unlinks(st, st', s);
    forall d | 0 <= d < |st.clients| ensures ClientOk(st', d) {
      assert ClientOk(st, d);
    }
  }

  lemma CreateKeepsOwnership(st: State, c: ClientId)
    requires Ownership(st) && Enabled(st, GetOrCreate(c, true)) && st.clients[c].key !in st.pool
    ensures Ownership(ApplyGetOrCreate(st, c, true))
  {
    var st' := ApplyGetOrCreate(st, c, true);
    assert ClientOk(st, c);
    forall t | 0 <= t < |st'.segs| ensures SegOk(st', t) {
      if t < |st.segs| {
        assert SegOk(st, t);
      }
    }
    forall d | 0 <= d < |st.clients| ensures ClientOk(st', d) {
      assert ClientOk(st, d);
    }
  }

  lemma GetOrCreateKeepsOwnership(st: State, c: ClientId, buildOk: bool)
    requires Ownership(st) && Enabled(st, GetOrCreate(c, buildOk))
    ensures Ownership(ApplyGetOrCreate(st, c, buildOk))
  {
    if st.clients[c].key !in st.pool && buildOk {
      CreateKeepsOwnership(st, c);
    } else {
      assert ClientOk(st, c);
      ClientMoves(st, ApplyGetOrCreate(st, c, buildOk), c);
    }
  }

  lemma TakeKeepsOwnership(st: State, c: ClientId)
    requires Ownership(st) && Enabled(st, TakePermit(c))
    ensures Ownership(Apply(st, TakePermit(c)))
  {
    var s, st' := st.clients[c].pc.seg, Apply(st, TakePermit(c));
    assert ClientOk(st, c) && SegOk(st, s);
    forall t | 0 <= t < |st.segs| ensures SegOk(st', t) {
      assert SegOk(st, t);
    }
    forall d | 0 <= d < |st.clients| ensures ClientOk(st', d) {
      assert ClientOk(st, d);
    }
  }

  lemma ArriveKeepsOwnership(st: State, key: Key, sem: Option<Sem>)
    requires Ownership(st) && Enabled(st, Arrive(key, sem))
    ensures Ownership(Apply(st, Arrive(key, sem)))
  {
    var st' := Apply(st, Arrive(key, sem));
    forall t | 0 <= t < |st.segs| ensures SegOk(st', t) {
      assert SegOk(st, t);
    }
    forall d | 0 <= d < |st'.clients| ensures ClientOk(st', d) {
      if d < |st.clients| {
        assert ClientOk(st, d);
      }
    }
  }

  lemma ClientStepKeepsOwnership(st: State, c: ClientId, move: ClientMove)
    requires Ownership(st) && Enabled(st, ClientStep(c, move))
    ensures Ownership(ApplyClient(st, c, move))
  {
    assert ClientOk(st, c);
    ClientMoves(st, ApplyClient(st, c, move), c);
  }

  lemma OwnerStepKeepsOwnership(st: State, step: Step)
    requires Ownership(st) && Enabled(st, step)
    requires step.OwnerStep? || step.GivePermit? || step.StopCancel? || step.StopNotify?
    ensures Ownership(Apply(st, step))
  {
    assert SegOk(st, step.s);
    OwnerMoves(st, Apply(st, step), step.s);
  }

  lemma OwnershipKept(st: State, step: Step)
    requires Ownership(st) && Enabled(st, step)
    ensures Ownership(Apply(st, step))
  {
    match step {
      case Arrive(key, sem) => ArriveKeepsOwnership(st, key, sem);
      case GetOrCreate(c, buildOk) => GetOrCreateKeepsOwnership(st, c, buildOk);
      case TakePermit(c) => TakeKeepsOwnership(st, c);
      case EvictKey(c) => EvictKeepsOwnership(st, c);
      case RemoveKey(s) => RemoveKeepsOwnership(st, s);
      case ClientStep(c, move) => ClientStepKeepsOwnership(st, c, move);
      case _ => OwnerStepKeepsOwnership(st, step);
    }
  }

  /** One client moves, and each counter changes by what the move does to the client's registration. */
  lemma AccountingMoves(st: State, st': State, c: ClientId)
    requires Accounting(st) && |st'.segs| == |st.segs|
    requires c < |st.clients| == |st'.clients| && st'.clients == st.clients[c := st'.clients[c]]
    requires forall s | 0 <= s < |st.segs| ::
      st'.segs[s].signals.clients + (if Counted(st.clients[c].pc, s) then 1 else 0)
      == st.segs[s].signals.clients + if Counted(st'.clients[c].pc, s) then 1 else 0
    ensures Accounting(st')
  {
    forall s | 0 <= s < |st.segs| ensures st'.segs[s].signals.clients == Registered(st'.clients, s) {
      RegisteredUpdate(st.clients, c, st'.clients[c], s);
    }
  }

  lemma GetOrCreateKeepsAccounting(st: State, c: ClientId, buildOk: bool)
    requires Ownership(st) && Accounting(st) && Enabled(st, GetOrCreate(c, buildOk))
    ensures Accounting(Apply(st, GetOrCreate(c, buildOk)))
  {
    var st' := Apply(st, GetOrCreate(c, buildOk));
    forall d | 0 <= d < |st.clients| ensures !Counted(st.clients[d].pc, |st.segs|) {
      assert ClientOk(st, d);
    }
    NobodyRegistered(st.clients, |st.segs|);
    forall s | 0 <= s < |st'.segs| ensures st'.segs[s].signals.clients == Registered(st'.clients, s) {
      RegisteredUpdate(st.clients, c, st'.clients[c], s);
    }
  }

  lemma ClientStepKeepsAccounting(st: State, c: ClientId, move: ClientMove)
    requires Ownership(st) && Accounting(st) && Enabled(st, ClientStep(c, move))
    ensures Accounting(ApplyClient(st, c, move))
  {
    assert ClientOk(st, c);
    AccountingMoves(st, ApplyClient(st, c, move), c);
  }

  lemma AccountingKept(st: State, step: Step)
    requires Ownership(st) && Accounting(st) && Enabled(st, step)
    ensures Accounting(Apply(st, step))
  {
    match step {
      case Arrive(_, _) => assert Apply(st, step).clients[..|st.clients|] == st.clients;
      case GetOrCreate(c, buildOk) => GetOrCreateKeepsAccounting(st, c, buildOk);
      case ClientStep(c, move) => ClientStepKeepsAccounting(st, c, move);
      case TakePermit(c) => AccountingMoves(st, Apply(st, step), c);
      case EvictKey(c) => AccountingMoves(st, Apply(st, step), c);
      case _ =>
    }
  }

  /** At most one segmenter changes, and `used` follows what that does to its permit. */
  lemma PermitMoves(st: State, st': State, s: SegId)
    requires Permits(st) && s < |st.segs| == |st'.segs| && st'.cap == st.cap && st'.used.Keys == st.used.Keys
    requires st'.segs == st.segs[s := st'.segs[s]]
    requires forall m <- st.cap ::
      && st'.used[m] + (if Holds(st.segs[s], m) then 1 else 0) == st.used[m] + (if Holds(st'.segs[s], m) then 1 else 0)
      && st'.used[m] <= st.cap[m]
    ensures Permits(st')
  {
    forall m <- st.cap ensures st'.used[m] == Holders(st'.segs, m) <= st.cap[m] {
      HoldersUpdate(st.segs, s, st'.segs[s], m);
    }
  }

  lemma TakeKeepsPermits(st: State, c: ClientId)
    requires Ownership(st) && Permits(st) && Enabled(st, TakePermit(c))
    ensures Permits(Apply(st, TakePermit(c)))
  {
    var s := st.clients[c].pc.seg;
    assert ClientOk(st, c) && SegOk(st, s);
    PermitMoves(st, Apply(st, TakePermit(c)), s);
  }

  /** An owner that gives back a permit has one to give. */
  lemma HolderIsCounted(st: State, s: SegId)
    requires Ownership(st) && Permits(st) && s < |st.segs| && Holding(st.segs[s].phase) && st.segs[s].sem.Some?
    ensures st.segs[s].sem.value in st.used && st.used[st.segs[s].sem.value] > 0
  {
    assert SegOk(st, s);
    HoldersUpdate(st.segs, s, st.segs[s].(phase := Gone), st.segs[s].sem.value);
  }

  lemma GiveKeepsPermits(st: State, s: SegId)
    requires Ownership(st) && Permits(st) && Enabled(st, GivePermit(s))
    ensures Permits(Apply(st, GivePermit(s)))
  {
    assert SegOk(st, s);
    if st.segs[s].sem.Some? {
      HolderIsCounted(st, s);
    }
    PermitMoves(st, Apply(st, GivePermit(s)), s);
  }

  lemma {:induction false} HoldersAgree(a: seq<Seg>, b: seq<Seg>, m: Sem)
    requires |a| == |b| && forall t | 0 <= t < |a| :: Holds(a[t], m) <==> Holds(b[t], m)
    ensures Holders(a, m) == Holders(b, m)
  {
    if a != [] {
      HoldersAgree(a[..|a| - 1], b[..|b| - 1], m);
    }
  }

  /** Every other step leaves each holder a holder. */
  lemma SameHolders(st: State, st': State)
    requires Permits(st) && st'.used == st.used && st'.cap == st.cap && |st'.segs| == |st.segs|
    requires forall t | 0 <= t < |st.segs| ::
      st'.segs[t].sem == st.segs[t].sem && (Holding(st'.segs[t].phase) <==> Holding(st.segs[t].phase))
    ensures Permits(st')
  {
    forall m <- st.cap ensures Holders(st'.segs, m) == Holders(st.segs, m) {
      HoldersAgree(st.segs, st'.segs, m);
    }
  }

  lemma ClientStepKeepsPermits(st: State, c: ClientId, move: ClientMove)
    requires Permits(st) && Enabled(st, ClientStep(c, move))
    ensures Permits(ApplyClient(st, c, move))
  {
    SameHolders(st, ApplyClient(st, c, move));
  }

  lemma OwnerStepKeepsPermits(st: State, step: Step)
    requires Permits(st) && Enabled(st, step)
    requires step.OwnerStep? || step.RemoveKey? || step.StopCancel? || step.StopNotify?
    ensures Permits(Apply(st, step))
  {
    SameHolders(st, Apply(st, step));
  }

  lemma PermitsKept(st: State, step: Step)
    requires Ownership(st) && Permits(st) && Enabled(st, step)
    ensures Permits(Apply(st, step))
  {
    match step {
      case Arrive(_, _) =>
      case GetOrCreate(_, _) =>
        assert Apply(st, step).segs != st.segs ==> Apply(st, step).segs[..|st.segs|] == st.segs;
      case TakePermit(c) => TakeKeepsPermits(st, c);
      case GivePermit(s) => GiveKeepsPermits(st, s);
      case EvictKey(c) => assert ClientOk(st, c); SameHolders(st, Apply(st, step));
      case ClientStep(c, move) => ClientStepKeepsPermits(st, c, move);
      case _ => OwnerStepKeepsPermits(st, step);
    }
  }

  /** What a step may do to a counter, its announcement and the clients about to announce. */
  ghost predicate EmptyingStep(st: State, st': State) {
    && |st'.segs| >= |st.segs| && |st'.clients| >= |st.clients|
    && (forall s | |st.segs| <= s < |st'.segs| :: st'.segs[s].signals.clients > 0)
    && (forall s | 0 <= s < |st.segs| && st.segs[s].signals.empty :: st'.segs[s].signals.empty)
    && (forall s | 0 <= s < |st.segs| && st.segs[s].signals.clients > 0 ::
          st'.segs[s].signals.clients > 0 || AboutToNotify(st', s))
    && (forall c | 0 <= c < |st.clients| && st.clients[c].pc.Notify? ::
          st'.clients[c].pc == st.clients[c].pc
          || (st.clients[c].pc.seg < |st.segs| ==> st'.segs[st.clients[c].pc.seg].signals.empty))
  }

  lemma EmptyingMoves(st: State, st': State)
    requires Emptying(st) && EmptyingStep(st, st')
    ensures Emptying(st')
  {
    forall s | 0 <= s < |st'.segs| && st'.segs[s].signals.clients <= 0
      ensures st'.segs[s].signals.empty || AboutToNotify(st', s)
    {
      if s < |st.segs| && st.segs[s].signals.clients <= 0 && !st.segs[s].signals.empty {
        var c :| 0 <= c < |st.clients| && st.clients[c].pc.Notify? && st.clients[c].pc.seg == s;
        assert 0 <= c < |st'.clients|;
      }
    }
  }

  /** A decrement to zero leaves its client about to announce. */
  lemma ClientStepEmptying(st: State, c: ClientId, move: ClientMove)
    requires Ownership(st) && Enabled(st, ClientStep(c, move))
    ensures EmptyingStep(st, ApplyClient(st, c, move))
  {
    var st' := ApplyClient(st, c, move);
    var s := Target(st.clients[c].pc);
    assert move.DropClient? && st'.segs[s].signals.clients <= 0 ==>
        st'.clients[c].pc.Notify? && st'.clients[c].pc.seg == s;
  }

  lemma EmptyingKept(st: State, step: Step)
    requires Ownership(st) && Emptying(st) && Enabled(st, step)
    ensures Emptying(Apply(st, step))
  {
    if step.ClientStep? {
      ClientStepEmptying(st, step.c, step.move);
    }
    EmptyingMoves(st, Apply(st, step));
  }

  lemma ClientStepKeepsCancelling(st: State, c: ClientId, move: ClientMove)
    requires Cancelling(st) && Enabled(st, ClientStep(c, move))
    ensures Cancelling(ApplyClient(st, c, move))
  {
  }

  lemma OwnerStepKeepsCancelling(st: State, s: SegId, act: OwnerMove)
    requires Cancelling(st) && Enabled(st, OwnerStep(s, act))
    ensures Cancelling(Apply(st, OwnerStep(s, act)))
  {
    assert CancelOk(st.segs[s]);
  }

  lemma CancellingKept(st: State, step: Step)
    requires Ownership(st) && Cancelling(st) && Enabled(st, step)
    ensures Cancelling(Apply(st, step))
  {
    match step {
      case ClientStep(c, move) => ClientStepKeepsCancelling(st, c, move);
      case OwnerStep(s, act) => OwnerStepKeepsCancelling(st, s, act);
      case StopCancel(s) => StopKeepsCancelling(st, s, true);
      case StopNotify(s) => StopKeepsCancelling(st, s, false);
      case _ => CreatorKeepsCancelling(st, step);
    }
  }

  lemma StopKeepsCancelling(st: State, s: SegId, cancel: bool)
    requires Ownership(st) && Cancelling(st) && Enabled(st, if cancel then StopCancel(s) else StopNotify(s))
    ensures Cancelling(ApplyStop(st, s, cancel))
  {
    assert SegOk(st, s) && CancelOk(st.segs[s]);
  }

  lemma CreatorKeepsCancelling(st: State, step: Step)
    requires Ownership(st) && Cancelling(st) && Enabled(st, step)
    requires !step.ClientStep? && !step.OwnerStep? && !step.StopCancel? && !step.StopNotify?
    ensures Cancelling(Apply(st, step))
  {
    assert step.TakePermit? || step.EvictKey? ==> ClientOk(st, step.c);
  }

  /** Every step keeps the invariant. */
  lemma StepKeepsInv(st: State, step: Step)
    requires Inv(st) && Enabled(st, step)
    ensures Inv(Apply(st, step))
  {
    OwnershipKept(st, step);
    AccountingKept(st, step);
    PermitsKept(st, step);
    EmptyingKept(st, step);
    CancellingKept(st, step);
  }

  // ---------- Theorems about every run ----------

  /** Every state of every run that starts with nobody connected satisfies the invariant. */
  lemma {:induction false} EveryRunIsSafe(states: seq<State>, steps: seq<Step>, n: nat)
    requires IsRun(states, steps) && Initial(states[0]) && n < |states|
    ensures Inv(states[n])
  {
    if n == 0 {
      InitialInv(states[0]);
    } else {
      EveryRunIsSafe(states, steps, n - 1);
      StepKeepsInv(states[n - 1], steps[n - 1]);
    }
  }

  /** At most one segmenter process runs per stream key, in every reachable state. */
  lemma OneProcessPerKey(states: seq<State>, steps: seq<Step>, n: nat, s: SegId, t: SegId)
    requires IsRun(states, steps) && Initial(states[0]) && n < |states|
    requires s < |states[n].segs| && t < |states[n].segs|
    requires states[n].segs[s].phase.Live? && states[n].segs[t].phase.Live?
    requires states[n].segs[s].key == states[n].segs[t].key
    ensures s == t
  {
    EveryRunIsSafe(states, steps, n);
    assert SegOk(states[n], s) && SegOk(states[n], t);
  }

  /** The one step that may unlink segmenter `s`. */
  predicate UnlinksOwn(st: State, step: Step, s: SegId) {
    match step
    case EvictKey(c) => c < |st.clients| && st.clients[c].pc == Evict(s) && s < |st.segs| && st.segs[s].creator == c
    case RemoveKey(t) => t == s
    case _ => false
  }

  /**
   A segmenter leaves the map exactly when its own creator or its own owner removes it,
   and the map then has no entry for the key: no `remove` deletes another's segmenter.
   */
  lemma OnlyItsOwnRemoveUnlinks(states: seq<State>, steps: seq<Step>, n: nat, k: Key)
    requires IsRun(states, steps) && Initial(states[0]) && n < |steps| && k in states[n].pool
    ensures states[n].pool[k] < |states[n].segs|
    ensures k in states[n + 1].pool ==> states[n + 1].pool[k] == states[n].pool[k]
    ensures k !in states[n + 1].pool <==> UnlinksOwn(states[n], steps[n], states[n].pool[k])
  {
    var st, step := states[n], steps[n];
    EveryRunIsSafe(states, steps, n);
    match step {
      case EvictKey(c) => EvictKeepsOwnership(st, c); assert ClientOk(st, c) && SegOk(st, st.clients[c].pc.seg);
      case RemoveKey(s) => RemoveKeepsOwnership(st, s);
      case _ =>
    }
  }

  lemma StepKeepsUnlinked(st: State, step: Step, s: SegId)
    requires Inv(st) && Enabled(st, step) && s < |st.segs| && !Linked(st.segs[s].phase)
    ensures s < |Apply(st, step).segs| && !Linked(Apply(st, step).segs[s].phase)
  {
    match step {
      case TakePermit(c) => assert ClientOk(st, c);
      case EvictKey(c) => assert ClientOk(st, c);
      case ClientStep(c, move) => assert Apply(st, step) == ApplyClient(st, c, move);
      case _ =>
    }
  }

  /** A segmenter that has left the map never comes back, so it is removed at most once. */
  lemma {:induction false} UnlinkedForGood(states: seq<State>, steps: seq<Step>, i: nat, j: nat, s: SegId)
    requires IsRun(states, steps) && Initial(states[0]) && i <= j < |states|
    requires s < |states[i].segs| && !Linked(states[i].segs[s].phase)
    ensures s < |states[j].segs| && !Linked(states[j].segs[s].phase)
    decreases j - i
  {
    if i < j {
      EveryRunIsSafe(states, steps, i);
      StepKeepsUnlinked(states[i], steps[i], s);
      UnlinkedForGood(states, steps, i + 1, j, s);
    }
  }

  /** Permits taken are exactly those of the owners between acquire and release, and processes never exceed capacity. */
  lemma PermitsConserved(states: seq<State>, steps: seq<Step>, n: nat, m: Sem)
    requires IsRun(states, steps) && Initial(states[0]) && n < |states| && m in states[n].cap
    ensures m in states[n].used && states[n].used[m] == Holders(states[n].segs, m)
    ensures Processes(states[n].segs, m) <= Holders(states[n].segs, m) <= states[n].cap[m]
  {
    EveryRunIsSafe(states, steps, n);
    ProcessesAtMostHolders(states[n].segs, m);
  }

  /**
   The permits change in two steps only: a creator takes one for the segmenter it made, and an
   owner that holds one gives it back. Joiners take none, and no release is one too many.
   */
  lemma OnlyCreatorsTakePermits(states: seq<State>, steps: seq<Step>, n: nat, m: Sem)
    requires IsRun(states, steps) && Initial(states[0]) && n < |steps| && m in states[n].cap
    ensures m in states[n].used && m in states[n + 1].used
    ensures states[n + 1].used[m] > states[n].used[m] <==>
      steps[n].TakePermit? && states[n].clients[steps[n].c].sem == Some(m)
    ensures states[n + 1].used[m] < states[n].used[m] <==>
      steps[n].GivePermit? && states[n].segs[steps[n].s].sem == Some(m)
    ensures steps[n].TakePermit? ==>
      var c := steps[n].c;
      var s := states[n].clients[c].pc.seg;
      s < |states[n].segs| && states[n].segs[s].creator == c && states[n].segs[s].sem == states[n].clients[c].sem
  {
    var st, step := states[n], steps[n];
    EveryRunIsSafe(states, steps, n);
    match step {
      case TakePermit(c) => assert ClientOk(st, c) && SegOk(st, st.clients[c].pc.seg);
      case GivePermit(s) =>
        if st.segs[s].sem.Some? {
          HolderIsCounted(st, s);
        }
      case _ =>
    }
  }

  // ---------- Client accounting ----------

  predicate IsJoin(st: State, step: Step, s: SegId) {
    step.ClientStep? && step.move.AddClient? && step.c < |st.clients| && st.clients[step.c].pc == Join(s)
  }

  predicate IsDeparture(st: State, step: Step, s: SegId) {
    step.ClientStep? && step.move.DropClient? && step.c < |st.clients|
    && st.clients[step.c].pc.Leave? && st.clients[step.c].pc.seg == s
  }

  /** Joins of segmenter `s` among the first `n` steps of a run. */
  function Joins(states: seq<State>, steps: seq<Step>, n: nat, s: SegId): nat
    requires n <= |steps| <= |states|
  {
    if n == 0 then 0
    else Joins(states, steps, n - 1, s) + if IsJoin(states[n - 1], steps[n - 1], s) then 1 else 0
  }

  /** Departures from segmenter `s` among the first `n` steps of a run. */
  function Leaves(states: seq<State>, steps: seq<Step>, n: nat, s: SegId): nat
    requires n <= |steps| <= |states|
  {
    if n == 0 then 0
    else Leaves(states, steps, n - 1, s) + if IsDeparture(states[n - 1], steps[n - 1], s) then 1 else 0
  }

  /** Departures by client `c` among the first `n` steps. */
  function LeavesBy(steps: seq<Step>, n: nat, c: ClientId): nat
    requires n <= |steps|
  {
    if n == 0 then 0
    else LeavesBy(steps, n - 1, c) + if steps[n - 1] == ClientStep(c, DropClient) then 1 else 0
  }

  lemma ClientStepCounts(st: State, c: ClientId, move: ClientMove, s: SegId)
    requires Inv(st) && Enabled(st, ClientStep(c, move)) && s < |st.segs|
    ensures ApplyClient(st, c, move).segs[s].signals.clients == st.segs[s].signals.clients
      + (if IsJoin(st, ClientStep(c, move), s) then 1 else 0)
      - (if IsDeparture(st, ClientStep(c, move), s) then 1 else 0)
  {
    assert ClientOk(st, c);
  }

  /** One step changes a counter by exactly the join or departure it is. */
  lemma StepCounts(st: State, step: Step, s: SegId)
    requires Inv(st) && Enabled(st, step) && s < |Apply(st, step).segs|
    ensures Apply(st, step).segs[s].signals.clients ==
      if s < |st.segs| then
        st.segs[s].signals.clients
        + (if IsJoin(st, step, s) then 1 else 0) - (if IsDeparture(st, step, s) then 1 else 0)
      else 1
  {
    if step.ClientStep? {
      ClientStepCounts(st, step.c, step.move, s);
    }
  }

  lemma NoTrafficWithoutSegmenter(st: State, step: Step, s: SegId)
    requires Inv(st) && Enabled(st, step) && |st.segs| <= s
    ensures !IsJoin(st, step, s) && !IsDeparture(st, step, s)
  {
    if step.ClientStep? {
      assert ClientOk(st, step.c);
    }
  }

  lemma SegmentersAccumulate(st: State, step: Step)
    requires Enabled(st, step)
    ensures |st.segs| <= |Apply(st, step).segs|
  {
  }

  lemma {:induction false} NoTrafficBeforeCreation(states: seq<State>, steps: seq<Step>, n: nat, s: SegId)
    requires IsRun(states, steps) && Initial(states[0]) && n < |states|
    requires n > 0 ==> |states[n - 1].segs| <= s
    ensures Joins(states, steps, n, s) == 0 && Leaves(states, steps, n, s) == 0
  {
    if n > 0 {
      EveryRunIsSafe(states, steps, n - 1);
      NoTrafficWithoutSegmenter(states[n - 1], steps[n - 1], s);
      if n > 1 {
        SegmentersAccumulate(states[n - 2], steps[n - 2]);
      }
      NoTrafficBeforeCreation(states, steps, n - 1, s);
    }
  }

  /** The counter is one for the creator, plus joins, minus departures; it is never negative. */
  lemma {:induction false} CountIsJoinsMinusDepartures(states: seq<State>, steps: seq<Step>, n: nat, s: SegId)
    requires IsRun(states, steps) && Initial(states[0]) && n < |states| && s < |states[n].segs|
    ensures states[n].segs[s].signals.clients == 1 + Joins(states, steps, n, s) - Leaves(states, steps, n, s)
    ensures states[n].segs[s].signals.clients >= 0
  {
    EveryRunIsSafe(states, steps, n);
    if n > 0 {
      EveryRunIsSafe(states, steps, n - 1);
      StepCounts(states[n - 1], steps[n - 1], s);
      if s < |states[n - 1].segs| {
        CountIsJoinsMinusDepartures(states, steps, n - 1, s);
      } else {
        NoTrafficBeforeCreation(states, steps, n, s);
      }
    }
  }

  /** Whether a client is past its decrement. */
  predicate Departed(pc: Pc) {
    pc.Notify? || (pc.Done? && (pc.exit.Abandoned? || pc.exit.StartFailed? || pc.exit.Closed?))
  }

  lemma StepDeparts(st: State, step: Step, c: ClientId)
    requires Inv(st) && Enabled(st, step)
    ensures c < |st.clients| ==> c < |Apply(st, step).clients|
    ensures (c < |Apply(st, step).clients| && Departed(Apply(st, step).clients[c].pc)) <==>
      (step == ClientStep(c, DropClient) || (c < |st.clients| && Departed(st.clients[c].pc)))
    ensures step == ClientStep(c, DropClient) ==> !Departed(st.clients[c].pc)
  {
    if step.ClientStep? {
      assert ClientOk(st, step.c);
      assert Apply(st, step) == ApplyClient(st, step.c, step.move);
    }
  }

  /** A client has departed exactly once when it is past its decrement, and not at all before it. */
  lemma {:induction false} DepartsExactlyOnce(states: seq<State>, steps: seq<Step>, n: nat, c: ClientId)
    requires IsRun(states, steps) && Initial(states[0]) && n < |states|
    ensures LeavesBy(steps, n, c) == if c < |states[n].clients| && Departed(states[n].clients[c].pc) then 1 else 0
  {
    if n > 0 {
      DepartsExactlyOnce(states, steps, n - 1, c);
      EveryRunIsSafe(states, steps, n - 1);
      StepDeparts(states[n - 1], steps[n - 1], c);
    }
  }

  /** Some state of the run up to `n` has a counter of zero for `s`. */
  ghost predicate WasEmptyBy(states: seq<State>, n: nat, s: SegId)
    requires n < |states|
  {
    exists i :: 0 <= i <= n && s < |states[i].segs| && states[i].segs[s].signals.clients <= 0
  }

  /** Segmenter `s` is linked and announced empty, or some client is about to announce it. */
  ghost predicate Announced(st: State, s: SegId) {
    s < |st.segs| && ((st.segs[s].signals.empty && Linked(st.segs[s].phase)) || AboutToNotify(st, s))
  }

  lemma ClientStepAnnounces(st: State, c: ClientId, move: ClientMove, s: SegId)
    requires Inv(st) && Enabled(st, ClientStep(c, move)) && Announced(ApplyClient(st, c, move), s)
    ensures Announced(st, s) || ApplyClient(st, c, move).segs[s].signals.clients <= 0
  {
    var st' := ApplyClient(st, c, move);
    assert ClientOk(st, c);
    if AboutToNotify(st', s) && !AboutToNotify(st, s) {
      var d :| 0 <= d < |st'.clients| && st'.clients[d].pc.Notify? && st'.clients[d].pc.seg == s;
      assert d == c;
    }
  }

  /** Only a client's own decrement puts it about to announce. */
  lemma NoNewNotifier(st: State, step: Step, s: SegId)
    requires Enabled(st, step) && !step.ClientStep? && AboutToNotify(Apply(st, step), s)
    ensures AboutToNotify(st, s)
  {
    var st' := Apply(st, step);
    var d :| 0 <= d < |st'.clients| && st'.clients[d].pc.Notify? && st'.clients[d].pc.seg == s;
    assert d < |st.clients| && st.clients[d] == st'.clients[d];
  }

  lemma StepAnnounces(st: State, step: Step, s: SegId)
    requires Inv(st) && Enabled(st, step) && Announced(Apply(st, step), s)
    ensures Announced(st, s) || Apply(st, step).segs[s].signals.clients <= 0
  {
    if step.ClientStep? {
      ClientStepAnnounces(st, step.c, step.move, s);
    } else if AboutToNotify(Apply(st, step), s) {
      NoNewNotifier(st, step, s);
      var d :| 0 <= d < |st.clients| && st.clients[d].pc.Notify? && st.clients[d].pc.seg == s;
      assert ClientOk(st, d);
    } else {
      assert step.StopNotify? ==> SegOk(st, step.s);
      assert step.TakePermit? ==> ClientOk(st, step.c);
    }
  }

  /** While a segmenter is linked, emptiness is announced only after the counter has been zero. */
  lemma {:induction false} AnnouncedOnlyAfterZero(states: seq<State>, steps: seq<Step>, n: nat, s: SegId)
    requires IsRun(states, steps) && Initial(states[0]) && n < |states| && Announced(states[n], s)
    ensures WasEmptyBy(states, n, s)
  {
    if n > 0 {
      EveryRunIsSafe(states, steps, n - 1);
      StepAnnounces(states[n - 1], steps[n - 1], s);
      if Announced(states[n - 1], s) {
        AnnouncedOnlyAfterZero(states, steps, n - 1, s);
        var i :| 0 <= i <= n - 1 && s < |states[i].segs| && states[i].segs[s].signals.clients <= 0;
        assert 0 <= i <= n;
      }
    }
  }

  /** Until its owner unwinds, a process is cancelled only if at some earlier moment no client was counted. */
  lemma CancelledOnlyAfterZero(states: seq<State>, steps: seq<Step>, n: nat, s: SegId)
    requires IsRun(states, steps) && Initial(states[0]) && n < |states| && s < |states[n].segs|
    requires states[n].segs[s].procCancelled && Linked(states[n].segs[s].phase)
    ensures WasEmptyBy(states, n, s)
  {
    EveryRunIsSafe(states, steps, n);
    assert CancelOk(states[n].segs[s]);
    AnnouncedOnlyAfterZero(states, steps, n, s);
  }

  /** The outcome is known: the owner has reported it, or the readiness poll has ended while the process was there. */
  predicate Reported(seg: Seg) {
    Finished(seg.phase) || ((seg.phase.Live? || seg.phase.Exited?) && !seg.polling)
  }

  /**
   Who frees a waiting client: its own context at any time, `ready` exactly when the outcome has been
   reported, and nothing else. If the creator was refused its permit, it never is.
   */
  lemma WhoFreesAWaitingClient(states: seq<State>, steps: seq<Step>, n: nat, c: ClientId, move: ClientMove)
    requires IsRun(states, steps) && Initial(states[0]) && n < |states|
    requires c < |states[n].clients| && states[n].clients[c].pc.Wait?
    ensures states[n].clients[c].pc.seg < |states[n].segs|
    ensures Enabled(states[n], ClientStep(c, move)) <==>
      move.SeeCancelled? || (move.SeeReady? && Reported(states[n].segs[states[n].clients[c].pc.seg]))
  {
    EveryRunIsSafe(states, steps, n);
    assert ClientOk(states[n], c);
    assert CancelOk(states[n].segs[states[n].clients[c].pc.seg]);
  }

  /** An evicted segmenter stays evicted, so its `ready` never closes. */
  lemma {:induction false} EvictedForGood(states: seq<State>, steps: seq<Step>, i: nat, j: nat, s: SegId)
    requires IsRun(states, steps) && Initial(states[0]) && i <= j < |states|
    requires s < |states[i].segs| && states[i].segs[s].phase.Evicted?
    ensures s < |states[j].segs| && states[j].segs[s].phase.Evicted? && !states[j].segs[s].signals.ready
    decreases j - i
  {
    EveryRunIsSafe(states, steps, i);
    assert CancelOk(states[i].segs[s]);
    if i < j {
      StepKeepsEvicted(states[i], steps[i], s);
      EvictedForGood(states, steps, i + 1, j, s);
    }
  }

  lemma StepKeepsEvicted(st: State, step: Step, s: SegId)
    requires Inv(st) && Enabled(st, step) && s < |st.segs| && st.segs[s].phase.Evicted?
    ensures s < |Apply(st, step).segs| && Apply(st, step).segs[s].phase.Evicted?
  {
    assert step.TakePermit? ==> ClientOk(st, step.c);
  }

  /** Clients and segmenter of the example below: the creator at `a`, the joiner at `b`. */
  function Example(key: Key, a: Pc, b: Pc, count: int, phase: Phase, linked: bool): State {
    State([Client(key, Some(0), a), Client(key, Some(0), b)],
          [Seg(key, Some(0), 0, FRESH.(clients := count), false, false, phase)],
          if linked then map[key := 0] else map[], map[0 := 0], map[0 := 1])
  }

  lemma CreatorArrives(key: Key)
    ensures
      var s0 := State([], [], map[], map[0 := 0], map[0 := 1]);
      var s1 := s0.(clients := [Client(key, Some(0), Lookup)]);
      var s2 := State([Client(key, Some(0), Acquire(0))], [Seg(key, Some(0), 0, FRESH, false, false, Reserved)],
                      map[key := 0], map[0 := 0], map[0 := 1]);
      && Initial(s0)
      && Enabled(s0, Arrive(key, Some(0))) && Apply(s0, Arrive(key, Some(0))) == s1
      && Enabled(s1, GetOrCreate(0, true)) && Apply(s1, GetOrCreate(0, true)) == s2
      && Enabled(s2, Arrive(key, Some(0)))
      && Apply(s2, Arrive(key, Some(0))) == Example(key, Acquire(0), Lookup, 1, Reserved, true)
  {
  }

  lemma JoinerJoins(key: Key)
    ensures
      var s3 := Example(key, Acquire(0), Lookup, 1, Reserved, true);
      var s4 := Example(key, Acquire(0), Join(0), 1, Reserved, true);
      && Enabled(s3, GetOrCreate(1, true)) && Apply(s3, GetOrCreate(1, true)) == s4
      && Enabled(s4, ClientStep(1, AddClient))
      && Apply(s4, ClientStep(1, AddClient)) == Example(key, Acquire(0), Wait(0), 2, Reserved, true)
  {
  }

  lemma CreatorGivesUp(key: Key)
    ensures
      var s5 := Example(key, Acquire(0), Wait(0), 2, Reserved, true);
      var s6 := Example(key, Evict(0), Wait(0), 2, Reserved, true);
      && Enabled(s5, ClientStep(0, PermitTimeout)) && Apply(s5, ClientStep(0, PermitTimeout)) == s6
      && Enabled(s6, EvictKey(0))
      && Apply(s6, EvictKey(0)) == Example(key, EvictCancel(0, 0), Wait(0), 2, Evicted, false)
  {
  }

  /** It happens: a joiner waits on a segmenter whose creator was refused its permit. */
  lemma JoinerOfEvicted(key: Key) returns (states: seq<State>, steps: seq<Step>)
    ensures IsRun(states, steps) && Initial(states[0])
    ensures states[|steps|] == Example(key, EvictCancel(0, 0), Wait(0), 2, Evicted, false)
  {
    var s0 := State([], [], map[], map[0 := 0], map[0 := 1]);
    steps := [Arrive(key, Some(0)), GetOrCreate(0, true), Arrive(key, Some(0)), GetOrCreate(1, true),
              ClientStep(1, AddClient), ClientStep(0, PermitTimeout), EvictKey(0)];
    CreatorArrives(key);
    JoinerJoins(key);
    CreatorGivesUp(key);
    states := [s0, s0.(clients := [Client(key, Some(0), Lookup)]),
               State([Client(key, Some(0), Acquire(0))], [Seg(key, Some(0), 0, FRESH, false, false, Reserved)],
                     map[key := 0], map[0 := 0], map[0 := 1]),
               Example(key, Acquire(0), Lookup, 1, Reserved, true),
               Example(key, Acquire(0), Join(0), 1, Reserved, true),
               Example(key, Acquire(0), Wait(0), 2, Reserved, true), Example(key, Evict(0), Wait(0), 2, Reserved, true),
               Example(key, EvictCancel(0, 0), Wait(0), 2, Evicted, false)];
  }
}

/**
 The buffering decoder (internal/listing/streaming.go): a background goroutine reads
 ahead into a batch, which joins the item buffer when it stops. The wrapped decoder is
 the sequence of its results.
 */
module Prefetch {
  import opened Basics

  datatype Outcome<T> = Item(value: T) | Failure(error: string)

  /** The result of the wrapped decoder's n-th call. */
  type Script<!T> = nat -> Outcome<T>

  const BATCH_SIZE: nat := 1000

  /** `pos` counts the calls of the wrapped decoder. */
  datatype State<T> = State(buffer: seq<T>, batch: seq<T>, running: bool, pos: nat, err: Option<string>)

  function Initial<T>(): State<T> {
    State([], [], false, 0, None)
  }

  // ---------- The operations ----------

  /** The goroutine returns: its batch goes to the buffer. */
  function Flush<T>(s: State<T>): State<T> {
    s.(buffer := s.buffer + s.batch, batch := [], running := false)
  }

  /** One tick: read until the batch is full or the decoder fails, which ends the goroutine. */
  function Tick<T>(script: Script<T>, s: State<T>): State<T>
    decreases BATCH_SIZE - |s.batch|
  {
    if |s.batch| >= BATCH_SIZE then s
    else match script(s.pos)
      case Item(x) => Tick(script, s.(batch := s.batch + [x], pos := s.pos + 1))
      case Failure(e) => Flush(s.(pos := s.pos + 1, err := Some(e)))
  }

  function Next<T>(script: Script<T>, s: State<T>): (Outcome<T>, State<T>) {
    if s.buffer != [] then (Item(s.buffer[0]), s.(buffer := s.buffer[1..]))
    else if s.err.Some? then (Failure(s.err.value), s)
    else (script(s.pos), s.(pos := s.pos + 1))
  }

  class BaseDecoder<T(!new)> {
    const script: Script<T>
    var itemBuffer: seq<T>
    var batch: seq<T>
    var running: bool
    var pos: nat
    var err: Option<string>

    function S(): State<T>
      reads this
    {
      State(itemBuffer, batch, running, pos, err)
    }

    constructor (script: Script<T>)
      ensures S() == Initial() && this.script == script
    {
      this.script := script;
      itemBuffer, batch, running, pos, err := [], [], false, 0, None;
    }

    method NextItem() returns (out: Outcome<T>)
      modifies this
      ensures (out, S()) == Next(script, old(S()))
    {
      if |itemBuffer| > 0 {
        out := Item(itemBuffer[0]);
        itemBuffer := itemBuffer[1..];
        return;
      }
      if err.Some? {
        return Failure(err.value);
      }
      out := script(pos);
      pos := pos + 1;
    }

    /** `initError`: what creating the decoder failed with, if it did. */
    method StartBuffering(initError: Option<string>) returns (error: Option<string>)
      requires !running && batch == []
      modifies this
      ensures error == initError
      ensures S() == if initError.Some? then old(S()).(err := initError) else old(S()).(running := true)
    {
      if initError.Some? {
        err := initError;
        return initError;
      }
      running := true;
      return None;
    }

    method TickOnce()
      requires running
      modifies this
      ensures S() == Tick(script, old(S()))
    {
      while |batch| < BATCH_SIZE
        invariant running && Tick(script, S()) == Tick(script, old(S()))
        decreases BATCH_SIZE - |batch|
      {
        var out := script(pos);
        pos := pos + 1;
        if out.Failure? {
          err := Some(out.error);
          itemBuffer, batch, running := itemBuffer + batch, [], false;
          return;
        }
        batch := batch + [out.value];
      }
    }

    method StopBuffer()
      modifies this
      ensures S() == if old(running) then Flush(old(S())) else old(S())
    {
      if running {
        itemBuffer, batch, running := itemBuffer + batch, [], false;
      }
    }

    method AddToBuffer(item: T)
      modifies this
      ensures S() == old(S()).(buffer := old(itemBuffer) + [item])
    {
      itemBuffer := itemBuffer + [item];
    }
  }

  // ---------- Schedules ----------

  datatype Event = Start | Ticked | Stop | Ask

  /** The consumer asks and restarts only while the goroutine is stopped. */
  predicate Possible<T>(s: State<T>, e: Event) {
    match e
    case Ticked => s.running
    case Stop => true
    case _ => !s.running
  }

  function After<T>(script: Script<T>, s: State<T>, e: Event): State<T>
    requires Possible(s, e)
  {
    match e
    case Start => s.(running := true)
    case Ticked => Tick(script, s)
    case Stop => if s.running then Flush(s) else s
    case Ask => Next(script, s).1
  }

  /** What the consumer is given along a schedule; events that are not possible do nothing. */
  function Given<T>(script: Script<T>, s: State<T>, events: seq<Event>): seq<Outcome<T>>
    decreases |events|
  {
    if events == [] then []
    else if !Possible(s, events[0]) then Given(script, s, events[1..])
    else
      (if events[0].Ask? then [Next(script, s).0] else []) + Given(script, After(script, s, events[0]), events[1..])
  }

  ghost predicate Sticky<T(!new)>(script: Script<T>) {
    forall i: nat, j: nat | i <= j && script(i).Failure? :: script(j) == script(i)
  }

  /** Every start finds no error from an earlier goroutine. */
  predicate NeverRestartsOnError<T>(script: Script<T>, s: State<T>, events: seq<Event>)
    decreases |events|
  {
    events == []
    || (if Possible(s, events[0])
        then (events[0].Start? ==> s.err.None?)
            && NeverRestartsOnError(script, After(script, s, events[0]), events[1..])
        else NeverRestartsOnError(script, s, events[1..]))
  }

  // ---------- Buffering is invisible ----------

  /** The buffered items are the results from the `n`th on, an error found ahead is the one after them. */
  ghost predicate Holds<T(!new)>(script: Script<T>, s: State<T>, n: nat) {
    && (forall i | 0 <= i < |s.buffer| :: script(n + i) == Item(s.buffer[i]))
    && (forall i | 0 <= i < |s.batch| :: script(n + |s.buffer| + i) == Item(s.batch[i]))
    && (s.err.None? ==> s.pos == n + |s.buffer| + |s.batch|)
    && (s.err.Some? ==> script(n + |s.buffer| + |s.batch|) == Failure(s.err.value))
    && (s.err.Some? && Sticky(script) ==> script(s.pos) == Failure(s.err.value))
    && (!s.running ==> s.batch == [])
    && (s.running && s.err.Some? ==> Sticky(script))
  }

  lemma {:induction false} TickHolds<T(!new)>(script: Script<T>, s: State<T>, n: nat)
    requires Holds(script, s, n) && s.running
    ensures Holds(script, Tick(script, s), n)
    decreases BATCH_SIZE - |s.batch|
  {
    if |s.batch| < BATCH_SIZE {
      match script(s.pos)
      case Item(x) => TickHolds(script, s.(batch := s.batch + [x], pos := s.pos + 1), n);
      case Failure(e) =>
    }
  }

  lemma NextHolds<T(!new)>(script: Script<T>, s: State<T>, n: nat)
    requires Holds(script, s, n) && !s.running
    ensures Next(script, s).0 == script(n)
    ensures script(n).Item? || Sticky(script) ==> Holds(script, Next(script, s).1, n + 1)
  {
  }

  /** `out` is what the decoder gives from its n-th call on; unless `forever`, only up to the first failure. */
  predicate Faithful<T(==)>(script: Script<T>, n: nat, out: seq<Outcome<T>>, forever: bool)
    decreases |out|
  {
    out == [] || (out[0] == script(n) && (forever || out[0].Item? ==> Faithful(script, n + 1, out[1..], forever)))
  }

  /**
   Whatever the goroutine reads ahead and whenever, the consumer gets the decoder's own
   results up to the first failure, and after it where failures are final.
   */
  lemma {:induction false} BufferingIsInvisible<T(!new)>(script: Script<T>, s: State<T>, events: seq<Event>, n: nat,
                                                  forever: bool)
    requires Holds(script, s, n) && (forever ==> Sticky(script))
    requires Sticky(script) || NeverRestartsOnError(script, s, events)
    ensures Faithful(script, n, Given(script, s, events), forever)
    decreases |events|
  {
    if events != [] {
      var e, rest := events[0], events[1..];
      if !Possible(s, e) {
        BufferingIsInvisible(script, s, rest, n, forever);
      } else if e.Ask? {
        var out := Given(script, After(script, s, e), rest);
        NextHolds(script, s, n);
        if forever || script(n).Item? {
          BufferingIsInvisible(script, After(script, s, e), rest, n + 1, forever);
        }
        assert ([script(n)] + out)[1..] == out;
      } else {
        EventHolds(script, s, e, n);
        BufferingIsInvisible(script, After(script, s, e), rest, n, forever);
        assert [] + Given(script, After(script, s, e), rest) == Given(script, After(script, s, e), rest);
      }
    }
  }

  lemma EventHolds<T(!new)>(script: Script<T>, s: State<T>, e: Event, n: nat)
    requires Holds(script, s, n) && Possible(s, e) && !e.Ask? && (Sticky(script) || (e.Start? ==> s.err.None?))
    ensures Holds(script, After(script, s, e), n)
  {
    if e.Ticked? {
      TickHolds(script, s, n);
    }
  }

  // ---------- Nothing is lost, with items put back too ----------

  /** The error `io.EOF`. */
  const EOF := "EOF"

  /**
   From its `n`-th call on the decoder gives one error for ever, and an end of file is final. Errors
   before that need not be: the decoder may go on behind them.
   */
  ghost predicate EndsAt<T(!new)>(script: Script<T>, n: nat) {
    && script(n).Failure? && (forall i: nat | i >= n :: script(i) == script(n))
    && forall i: nat, j: nat | i <= j && script(i) == Failure(EOF) :: script(j) == Failure(EOF)
  }

  /** The items among the results from `a` to `n`. */
  function Items<T>(script: Script<T>, a: nat, n: nat): multiset<T>
    decreases n - a
  {
    if a >= n then multiset{}
    else (if script(a).Item? then multiset{script(a).value} else multiset{}) + Items(script, a + 1, n)
  }

  /** The items the consumer has not been given. */
  function Rest<T>(script: Script<T>, s: State<T>, n: nat): multiset<T> {
    multiset(s.buffer) + multiset(s.batch) + Items(script, s.pos, n)
  }

  /** An end of file noted is the decoder's own, and only a running goroutine has a batch. */
  ghost predicate Sound<T(!new)>(script: Script<T>, s: State<T>) {
    && (s.err == Some(EOF) ==> forall j: nat | j >= s.pos :: script(j) == Failure(EOF))
    && (!s.running ==> s.batch == [])
  }

  lemma {:induction false} NothingAfterEof<T(!new)>(script: Script<T>, a: nat, n: nat)
    requires forall j: nat | j >= a :: script(j) == Failure(EOF)
    ensures Items(script, a, n) == multiset{}
    decreases n - a
  {
    if a < n {
      NothingAfterEof(script, a + 1, n);
    }
  }

  lemma ItemRead<T(!new)>(script: Script<T>, s: State<T>, n: nat)
    requires EndsAt(script, n) && script(s.pos).Item?
    ensures s.pos < n
    ensures Rest(script, s.(batch := s.batch + [script(s.pos).value], pos := s.pos + 1), n) == Rest(script, s, n)
  {
    var x := script(s.pos).value;
    assert s.pos < n;
    assert multiset(s.batch + [x]) == multiset(s.batch) + multiset{x};
  }

  lemma FlushKeepsRest<T>(script: Script<T>, s: State<T>, n: nat)
    ensures Rest(script, Flush(s), n) == Rest(script, s, n)
  {
    assert multiset(s.buffer + s.batch) == multiset(s.buffer) + multiset(s.batch);
    assert multiset(s.buffer + s.batch) + multiset([]) == multiset(s.buffer) + multiset(s.batch);
  }

  lemma FailureRead<T(!new)>(script: Script<T>, s: State<T>, n: nat, err: Option<string>)
    requires script(s.pos).Failure?
    ensures Rest(script, s.(pos := s.pos + 1, err := err), n) == Rest(script, s, n)
  {
  }

  /** Reading ahead loses nothing, also when it runs into an error and goes on behind it later. */
  lemma {:induction false} TickKeepsRest<T(!new)>(script: Script<T>, s: State<T>, n: nat)
    requires EndsAt(script, n) && Sound(script, s) && s.running
    ensures Sound(script, Tick(script, s)) && Rest(script, Tick(script, s), n) == Rest(script, s, n)
    decreases BATCH_SIZE - |s.batch|
  {
    if |s.batch| < BATCH_SIZE {
      match script(s.pos)
      case Item(x) =>
        ItemRead(script, s, n);
        TickKeepsRest(script, s.(batch := s.batch + [x], pos := s.pos + 1), n);
      case Failure(e) =>
        FailureRead(script, s, n, Some(e));
        FlushKeepsRest(script, s.(pos := s.pos + 1, err := Some(e)), n);
    }
  }

  lemma BufferHead<T>(script: Script<T>, s: State<T>, n: nat)
    requires s.buffer != []
    ensures Rest(script, s, n) == multiset{s.buffer[0]} + Rest(script, s.(buffer := s.buffer[1..]), n)
  {
    assert s.buffer == [s.buffer[0]] + s.buffer[1..];
    assert multiset(s.buffer) == multiset{s.buffer[0]} + multiset(s.buffer[1..]);
  }

  lemma DirectItem<T(!new)>(script: Script<T>, s: State<T>, n: nat)
    requires EndsAt(script, n) && script(s.pos).Item?
    ensures Rest(script, s, n) == multiset{script(s.pos).value} + Rest(script, s.(pos := s.pos + 1), n)
  {
    assert s.pos < n;
  }

  /** An item given is one of the rest; an error takes none, and the end of file comes only when none is left. */
  lemma NextTakesOne<T(!new)>(script: Script<T>, s: State<T>, n: nat)
    requires EndsAt(script, n) && Sound(script, s) && !s.running
    ensures var (out, t) := Next(script, s);
      && Sound(script, t) && !t.running
      && (out.Item? ==> Rest(script, s, n) == multiset{out.value} + Rest(script, t, n))
      && (out.Failure? ==> Rest(script, t, n) == Rest(script, s, n))
      && (out == Failure(EOF) ==> Rest(script, s, n) == multiset{})
  {
    if s.buffer != [] {
      BufferHead(script, s, n);
    } else if s.err.Some? {
      if s.err.value == EOF {
        NothingAfterEof(script, s.pos, n);
      }
    } else if script(s.pos).Item? {
      DirectItem(script, s, n);
    } else {
      FailureRead(script, s, n, s.err);
      if script(s.pos) == Failure(EOF) {
        NothingAfterEof(script, s.pos, n);
      }
    }
  }

  // ---------- Exactly the decoders with final errors ----------

  /** A tick that reads an item leaves it in front of an empty buffer's queue. */
  lemma {:induction false} TickKeepsFirst<T(!new)>(script: Script<T>, s: State<T>)
    requires s.running && s.buffer == [] && s.batch != []
    ensures var t := Tick(script, s); var u := if t.running then Flush(t) else t;
      !u.running && u.buffer != [] && u.buffer[0] == s.batch[0]
    decreases BATCH_SIZE - |s.batch|
  {
    if |s.batch| < BATCH_SIZE && script(s.pos).Item? {
      TickKeepsFirst(script, s.(batch := s.batch + [script(s.pos).value], pos := s.pos + 1));
    }
  }

  /** One event, and then others. */
  lemma GivenFirst<T(!new)>(script: Script<T>, s: State<T>, e: Event, rest: seq<Event>)
    requires Possible(s, e)
    ensures Given(script, s, [e] + rest)
         == (if e.Ask? then [Next(script, s).0] else []) + Given(script, After(script, s, e), rest)
  {
    assert ([e] + rest)[1..] == rest;
  }

  /** With an error noted, a restart that reads result `s.pos` gives that result. */
  lemma RestartGivesNext<T(!new)>(script: Script<T>, s: State<T>)
    requires s.buffer == s.batch == [] && !s.running
    ensures Given(script, s, [Start] + ([Ticked] + ([Stop] + ([Ask] + [])))) == [script(s.pos)]
  {
    var started := s.(running := true);
    GivenFirst(script, s, Start, [Ticked] + ([Stop] + ([Ask] + [])));
    GivenFirst(script, started, Ticked, [Stop] + ([Ask] + []));
    var ticked := Tick(script, started);
    GivenFirst(script, ticked, Stop, [Ask] + []);
    var stopped := After(script, ticked, Stop);
    if script(s.pos).Item? {
      var one := started.(batch := started.batch + [script(s.pos).value], pos := s.pos + 1);
      assert ticked == Tick(script, one);
      TickKeepsFirst(script, one);
    }
    assert Next(script, stopped).0 == script(s.pos);
    GivenFirst(script, stopped, Ask, []);
    assert [script(s.pos)] + Given(script, After(script, stopped, Ask), []) == [script(s.pos)];
    assert [] + ([] + ([] + [script(s.pos)])) == [script(s.pos)];
  }

  /** Restarts go past equal errors, and then give result `j` in place of the error. */
  lemma {:induction false} RestartReaches<T(!new)>(script: Script<T>, s: State<T>, j: nat) returns (events: seq<Event>)
    requires s.buffer == s.batch == [] && !s.running && s.err.Some? && s.pos <= j
    requires forall k: nat | s.pos <= k < j :: script(k) == Failure(s.err.value)
    ensures Given(script, s, events) == [script(j)]
    decreases j - s.pos
  {
    if s.pos == j {
      RestartGivesNext(script, s);
      events := [Start] + ([Ticked] + ([Stop] + ([Ask] + [])));
    } else {
      var started, ticked := s.(running := true), s.(pos := s.pos + 1);
      var rest := RestartReaches(script, ticked, j);
      assert script(s.pos) == Failure(s.err.value) && Tick(script, started) == ticked;
      GivenFirst(script, s, Start, [Ticked] + rest);
      GivenFirst(script, started, Ticked, rest);
      events := [Start] + ([Ticked] + rest);
    }
  }

  /** A first failure at `i` that is not final: some schedule gives result `j` instead of it. */
  lemma {:induction false} ErrorPassed<T(!new)>(script: Script<T>, k: nat, i: nat, j: nat) returns (events: seq<Event>)
    requires k <= i < j && (forall l: nat | k <= l < i :: script(l).Item?) && script(i).Failure?
    requires (forall l: nat | i < l < j :: script(l) == script(i)) && script(j) != script(i)
    ensures !Faithful(script, k, Given(script, State([], [], false, k, None), events), false)
    decreases i - k
  {
    var s: State<T> := State([], [], false, k, None);
    if k < i {
      var rest := ErrorPassed(script, k + 1, i, j);
      GivenFirst(script, s, Ask, rest);
      var out := Given(script, s.(pos := k + 1), rest);
      assert ([script(k)] + out)[1..] == out;
      events := [Ask] + rest;
    } else {
      var started, ticked := s.(running := true), s.(pos := k + 1, err := Some(script(i).error));
      var rest := RestartReaches(script, ticked, j);
      assert Tick(script, started) == ticked;
      GivenFirst(script, s, Start, [Ticked] + rest);
      GivenFirst(script, started, Ticked, rest);
      events := [Start] + ([Ticked] + rest);
      assert Given(script, s, events) == [script(j)];
    }
  }

  lemma {:induction false} FirstFailure<T(!new)>(script: Script<T>, i: nat) returns (first: nat)
    requires script(i).Failure?
    ensures first <= i && script(first).Failure? && forall l: nat | l < first :: script(l).Item?
  {
    if l: nat :| l < i && script(l).Failure? {
      first := FirstFailure(script, l);
    } else {
      first := i;
    }
  }

  lemma {:induction false} FirstDifference<T(!new)>(script: Script<T>, i: nat, j: nat) returns (first: nat)
    requires i < j && script(j) != script(i)
    ensures i < first <= j && script(first) != script(i) && forall l: nat | i < l < first :: script(l) == script(i)
  {
    if l: nat :| i < l < j && script(l) != script(i) {
      first := FirstDifference(script, i, l);
    } else {
      first := j;
    }
  }

  /** Every schedule gives the decoder's own results. */
  ghost predicate Invisible<T(!new)>(script: Script<T>, forever: bool) {
    forall events :: Faithful(script, 0, Given(script, Initial(), events), forever)
  }

  /**
   Buffering with restarts is invisible exactly for decoders whose errors are final: for any other some
   schedule gives a wrong result no later than in place of the first error.
   */
  lemma InvisibleIffFinal<T(!new)>(script: Script<T>)
    ensures Invisible(script, false) <==> Sticky(script)
    ensures Invisible(script, true) <==> Sticky(script)
  {
    if Sticky(script) {
      forall events, forever ensures Faithful(script, 0, Given(script, Initial(), events), forever) {
        BufferingIsInvisible(script, Initial(), events, 0, forever);
      }
    } else {
      var i: nat, j: nat :| i <= j && script(i).Failure? && script(j) != script(i);
      var a := FirstFailure(script, i);
      var b := FirstDifference(script, a, if script(i) != script(a) then i else j);
      var events := ErrorPassed(script, 0, a, b);
      FaithfulForeverIsFaithful(script, 0, Given(script, Initial(), events));
    }
  }

  lemma {:induction false} FaithfulForeverIsFaithful<T>(script: Script<T>, n: nat, out: seq<Outcome<T>>)
    ensures Faithful(script, n, out, true) ==> Faithful(script, n, out, false)
    decreases |out|
  {
    if out != [] && Faithful(script, n, out, true) {
      FaithfulForeverIsFaithful(script, n + 1, out[1..]);
    }
  }

  /** An input: the item after a first error comes before the error. */
  lemma RestartMayPassError()
    ensures var script: Script<int> := (n: nat) => if n == 1 then Item(1) else Failure("broken");
      Given(script, Initial(), [Start] + ([Ticked] + ([Start] + ([Ticked] + ([Stop] + ([Ask] + [])))))) == [Item(1)]
      && script(0).Failure?
  {
    var script: Script<int> := (n: nat) => if n == 1 then Item(1) else Failure("broken");
    var s: State<int> := State([], [], false, 1, Some("broken"));
    var rest := [Start] + ([Ticked] + ([Stop] + ([Ask] + [])));
    GivenFirst(script, Initial(), Start, [Ticked] + rest);
    var started := Initial<int>().(running := true);
    GivenFirst(script, started, Ticked, rest);
    RestartGivesNext(script, s);
    assert Tick(script, started) == s;
    var given := Given(script, s, rest);
    assert given == [Item(1)] && [] + ([] + given) == given;
  }
}

/**
 Which error of a source the guide reports. The goroutine notes the error it runs into; when
 it is restarted after the channel phase it goes on behind it, and the next error or the end
 of file takes the place of the first (internal/listing/streaming.go:78-90).
 */
module GuideErrors {
  import opened Basics
  import opened Guides
  import opened GuideSources
  import P = Prefetch

  /** The first error from position `p` on is at `k`. */
  ghost predicate IsNextError(script: Script, p: nat, k: nat) {
    p <= k && script(k).Failure? && forall i: nat | p <= i < k :: script(i).Item?
  }

  /** The source yields a programme before position `f`. */
  ghost predicate HasProgramme(script: Script, a: nat, f: nat) {
    exists i: nat :: a <= i < f && script(i).Item? && script(i).value.ProgrammeElement?
  }

  // ---------- Ticks ----------

  /** A tick reads to the next error or to a full batch, whichever comes first. */
  lemma {:induction false} TickReads(script: Script, s: Buffering, k: nat)
    requires s.running && IsNextError(script, s.pos, k)
    ensures var t := P.Tick(script, s);
      if |s.batch| + (k - s.pos) < P.BATCH_SIZE then
        !t.running && t.batch == [] && t.err == Some(script(k).error) && t.pos == k + 1
      else t.running && t.err == s.err && s.pos <= t.pos <= k && (|t.batch| >= P.BATCH_SIZE)
    decreases P.BATCH_SIZE - |s.batch|
  {
    if |s.batch| < P.BATCH_SIZE && script(s.pos).Item? {
      TickReads(script, s.(batch := s.batch + [script(s.pos).value], pos := s.pos + 1), k);
    }
  }

  /** After that, ticks do nothing. */
  lemma {:induction false} IdleTicks(script: Script, s: Buffering, times: nat)
    requires !s.running || |s.batch| >= P.BATCH_SIZE
    ensures Ticks(script, s, times) == s
    decreases times
  {
    if times > 0 {
      IdleTicks(script, s, times - 1);
    }
  }

  /** The goroutine has found the error at `k` when it stops. */
  predicate Found(times: nat, p: nat, k: nat) {
    times > 0 && k - p < P.BATCH_SIZE
  }

  lemma TicksRead(script: Script, s: Buffering, times: nat, k: nat)
    requires s.running && s.batch == [] && IsNextError(script, s.pos, k)
    ensures var t := Stopped(Ticks(script, s, times));
      && !t.running && t.batch == []
      && if Found(times, s.pos, k) then t.err == Some(script(k).error) && t.pos == k + 1
         else t.err == s.err && s.pos <= t.pos <= k
  {
    if times > 0 {
      TickReads(script, s, k);
      IdleTicks(script, P.Tick(script, s), times - 1);
    }
  }

  // ---------- The programme phase ----------

  /** The phase ends with the error noted, or else with the next of the decoder. */
  lemma {:induction false} ProgrammesOutcome(script: Script, s: Buffering, end: nat, k: nat)
    requires P.EndsAt(script, end) && !s.running && IsNextError(script, s.pos, k)
    ensures ReadProgrammes(script, s, end).error == Reported(if s.err.Some? then s.err.value else script(k).error)
    decreases Calls(s, end)
  {
    var (out, t) := P.Next(script, s);
    if out.Item? {
      ProgrammesOutcome(script, t, end, k);
    }
  }

  // ---------- The channel phase ----------

  /** The next element is result `a`; the first error, at `f`, is ahead, noted or not. */
  ghost predicate Feeds(script: Script, s: Buffering, a: nat, f: nat) {
    && !s.running && s.batch == [] && IsNextError(script, a, f)
    && (forall i | 0 <= i < |s.buffer| :: script(a + i) == P.Item(s.buffer[i]))
    && (s.err.None? ==> s.pos == a + |s.buffer| <= f)
    && (s.err.Some? ==> s.err == Some(script(f).error) && s.pos == f + 1 && a + |s.buffer| == f)
  }

  /** The phase ends well if a programme comes before the error, and with the error otherwise. */
  lemma {:induction false} ChannelsOutcome(script: Script, s: Buffering, end: nat, a: nat, f: nat)
    requires P.EndsAt(script, end) && Feeds(script, s, a, f)
    ensures var r := ReadChannels(script, s, end);
      && !r.left.running && r.left.batch == [] && r.left.err == s.err
      && if HasProgramme(script, a, f)
         then r.error.None? && if s.err.Some? then r.left.pos == f + 1 else r.left.pos <= f
         else r.error == Reported(script(f).error) && r.left.pos <= f + 1
    decreases Calls(s, end)
  {
    var (out, t) := P.Next(script, s);
    if out.Item? {
      assert out == script(a) && a < f;
      if !out.value.ProgrammeElement? {
        ChannelsOutcome(script, t, end, a + 1, f);
        assert HasProgramme(script, a, f) <==> HasProgramme(script, a + 1, f);
      }
    }
  }

  /** A goroutine started with the decoder hands over the first results. */
  lemma EarlyFeeds(script: Script, times: nat, f: nat)
    requires IsNextError(script, 0, f)
    ensures var t := Stopped(Ticks(script, P.Initial().(running := true), times));
      Feeds(script, t, 0, f) && (t.err.Some? <==> Found(times, 0, f))
  {
    var s: Buffering := P.Initial().(running := true);
    TicksRead(script, s, times, f);
    assert P.Holds(script, s, 0);
    if times > 0 {
      TickReads(script, s, f);
      P.TickHolds(script, s, 0);
      IdleTicks(script, P.Tick(script, s), times - 1);
      var t := P.Tick(script, s);
      assert P.Holds(script, t, 0);
      FlushFeeds(script, t, f);
    }
  }

  lemma FlushFeeds(script: Script, t: Buffering, f: nat)
    requires P.Holds(script, t, 0) && IsNextError(script, 0, f)
    requires if t.err.Some? then t.err == Some(script(f).error) && t.pos == f + 1 else t.pos <= f
    ensures Feeds(script, Stopped(t), 0, f)
  {
    var n := |t.buffer| + |t.batch|;
    forall i: nat | i < n ensures script(i).Item? {
      if i < |t.buffer| {
        assert script(0 + i) == P.Item(t.buffer[i]);
      } else {
        assert script(0 + |t.buffer| + (i - |t.buffer|)) == P.Item(t.batch[i - |t.buffer|]);
      }
    }
    assert n <= f;
    if t.err.Some? {
      assert script(n) == P.Failure(t.err.value);
    }
  }

  // ---------- Both phases ----------

  lemma {:induction false} NextErrorExists(script: Script, end: nat, p: nat) returns (k: nat)
    requires P.EndsAt(script, end)
    ensures IsNextError(script, p, k)
    decreases end - p
  {
    if script(p).Failure? {
      k := p;
    } else {
      k := NextErrorExists(script, end, p + 1);
    }
  }

  /** The programme phase after a restart: the error noted before, unless the goroutine found another. */
  lemma AfterRestart(script: Script, s: Buffering, late: nat, end: nat, k: nat)
    requires P.EndsAt(script, end) && s.running && s.batch == [] && IsNextError(script, s.pos, k)
    ensures ReadProgrammes(script, Stopped(Ticks(script, s, late)), end).error
         == Reported(if s.err.None? || Found(late, s.pos, k) then script(k).error else s.err.value)
  {
    TicksRead(script, s, late, k);
    var t := Stopped(Ticks(script, s, late));
    var l := NextErrorExists(script, end, t.pos);
    ProgrammesOutcome(script, t, end, l);
    assert t.pos <= k ==> l == k;
  }

  /** The first error, at `f`, gives way to the next, at `k`. */
  ghost predicate IsReplaced(x: Source, f: nat, k: nat) {
    HasProgramme(x.script, 0, f) && Found(x.early, 0, f) && Found(x.late, f + 1, k)
  }

  /**
   What a source makes the guide end with: its first error, except that the next error or the end of file
   takes its place exactly when a programme comes before it, the goroutine ran into it before the
   channel phase, and into what follows it before the programme phase.
   */
  lemma SourceErrorIs(x: Source, f: nat, k: nat)
    requires Ends(x) && x.start == P.Initial().(running := true)
    requires IsNextError(x.script, 0, f) && IsNextError(x.script, f + 1, k)
    ensures SourceError(x) == Reported(x.script(if IsReplaced(x, f, k) then k else f).error)
  {
    var s := Stopped(Ticks(x.script, x.start, x.early));
    EarlyFeeds(x.script, x.early, f);
    ChannelsOutcome(x.script, s, x.end, 0, f);
    var left := Channels(x).left;
    if left.pos <= f {
      AfterRestart(x.script, left, x.late, x.end, f);
    } else {
      AfterRestart(x.script, left, x.late, x.end, k);
    }
  }

  /** A source with an error counts as complete exactly when the end of file takes the place of its first error. */
  lemma ErrorUnreportedIff(x: Source, f: nat, k: nat)
    requires Ends(x) && x.start == P.Initial().(running := true)
    requires IsNextError(x.script, 0, f) && IsNextError(x.script, f + 1, k) && x.script(f) != P.Failure(P.EOF)
    ensures SourceError(x).None? <==> IsReplaced(x, f, k) && x.script(k) == P.Failure(P.EOF)
  {
    SourceErrorIs(x, f, k);
  }

  /** An input: a programme, a malformed element, another programme; after two ticks no error is left. */
  lemma MalformedElementUnreported(p: Programme, q: Programme)
    ensures
      var script: Script := (i: nat) =>
        if i == 0 then P.Item(ProgrammeElement(p)) else if i == 1 then P.Failure("malformed")
        else if i == 2 then P.Item(ProgrammeElement(q)) else P.Failure(P.EOF);
      var x := Source(script, 3, P.Initial().(running := true), 1, 1, "url");
      Ends(x) && SourceError(x) == None
  {
    var script: Script := (i: nat) =>
      if i == 0 then P.Item(ProgrammeElement(p)) else if i == 1 then P.Failure("malformed")
      else if i == 2 then P.Item(ProgrammeElement(q)) else P.Failure(P.EOF);
    var x := Source(script, 3, P.Initial().(running := true), 1, 1, "url");
    assert script(0).Item? && script(0).value.ProgrammeElement?;
    assert HasProgramme(script, 0, 1);
    SourceErrorIs(x, 1, 3);
  }
}

/**
 One source of the guide through both phases (internal/listing/xmltv/streamer.go:98-164 on
 internal/listing/streaming.go): which elements each phase reads and which error it ends
 with, as functions of what the decoder gives and how far its goroutine read ahead.
 An XML decoder reports a malformed element and goes on with the next
 (internal/parser/xmltv/decoder.go:64-76), so errors before the end of file need not be final.
 */
module GuideSources {
  import opened Basics
  import opened Guides
  import P = Prefetch

  type Script = P.Script<Element>
  type Buffering = P.State<Element>

  /** How often the goroutine ticks before each of the two stops, and where the decoder ends. */
  datatype Source = Source(script: Script, end: nat, start: Buffering, early: nat, late: nat, url: string)

  ghost predicate Ends(x: Source) {
    P.EndsAt(x.script, x.end) && P.Sound(x.script, x.start)
  }

  /** What a phase ends with, the elements it handled, and the decoder it leaves. */
  datatype Reading = Reading(error: Option<string>, seen: seq<Element>, left: Buffering)

  function Ticks(script: Script, s: Buffering, times: nat): Buffering
    decreases times
  {
    if times == 0 then s else Ticks(script, if s.running then P.Tick(script, s) else s, times - 1)
  }

  function Stopped(s: Buffering): Buffering {
    if s.running then P.Flush(s) else s
  }

  /** Bounds the calls of `NextItem` that still give an element. */
  function Calls(s: Buffering, end: nat): nat {
    |s.buffer| + if s.pos < end then end - s.pos else 0
  }

  /** The end of file ends a phase without an error. */
  function Reported(error: string): Option<string> {
    if error == P.EOF then None else Some(error)
  }

  /** The loop of `processChannels`: the first programme is put back and ends it. */
  function ReadChannels(script: Script, s: Buffering, end: nat): Reading
    requires P.EndsAt(script, end) && !s.running
    decreases Calls(s, end)
  {
    var (out, t) := P.Next(script, s);
    match out
    case Failure(e) => Reading(Reported(e), [], t)
    case Item(x) =>
      if x.ProgrammeElement? then Reading(None, [], t.(buffer := t.buffer + [x]))
      else
        var r := ReadChannels(script, t, end);
        r.(seen := [x] + r.seen)
  }

  /** The loop of `processProgrammes`. */
  function ReadProgrammes(script: Script, s: Buffering, end: nat): Reading
    requires P.EndsAt(script, end) && !s.running
    decreases Calls(s, end)
  {
    var (out, t) := P.Next(script, s);
    match out
    case Failure(e) => Reading(Reported(e), [], t)
    case Item(x) =>
      var r := ReadProgrammes(script, t, end);
      r.(seen := [x] + r.seen)
  }

  /** `processChannels`, which stops the goroutine first and restarts it at the end. */
  function Channels(x: Source): Reading
    requires Ends(x)
  {
    TicksKeep(x.script, x.start, x.early, x.end);
    var r := ReadChannels(x.script, Stopped(Ticks(x.script, x.start, x.early)), x.end);
    r.(left := r.left.(running := true))
  }

  /** `processProgrammes`. */
  function Programmes(x: Source): Reading
    requires Ends(x)
  {
    ReadProgrammes(x.script, Stopped(Ticks(x.script, Channels(x).left, x.late)), x.end)
  }

  /** What the source makes the whole guide end with, if anything. */
  function SourceError(x: Source): Option<string>
    requires Ends(x)
  {
    if Channels(x).error.Some? then Channels(x).error else Programmes(x).error
  }

  // ---------- Conservation ----------

  lemma {:induction false} TicksKeep(script: Script, s: Buffering, times: nat, end: nat)
    requires P.EndsAt(script, end) && P.Sound(script, s)
    ensures var t := Ticks(script, s, times);
      && P.Sound(script, t) && P.Sound(script, Stopped(t)) && !Stopped(t).running
      && P.Rest(script, Stopped(t), end) == P.Rest(script, t, end) == P.Rest(script, s, end)
    decreases times
  {
    if times == 0 {
      P.FlushKeepsRest(script, s, end);
    } else if s.running {
      P.TickKeepsRest(script, s, end);
      TicksKeep(script, P.Tick(script, s), times - 1, end);
    } else {
      TicksKeep(script, s, times - 1, end);
    }
  }

  predicate NoProgrammes(seen: seq<Element>) {
    forall e | e in seen :: !e.ProgrammeElement?
  }

  lemma OneMore(all: multiset<Element>, e: Element, rest: multiset<Element>, seen: seq<Element>,
                left: multiset<Element>)
    requires all == multiset{e} + rest && rest == multiset(seen) + left
    ensures all == multiset([e] + seen) + left
  {
    assert multiset([e] + seen) == multiset{e} + multiset(seen);
  }

  /** The channel phase loses nothing and keeps no programme. */
  lemma {:induction false} ReadChannelsKeeps(script: Script, s: Buffering, end: nat)
    requires P.EndsAt(script, end) && P.Sound(script, s) && !s.running
    ensures var r := ReadChannels(script, s, end);
      && P.Sound(script, r.left) && !r.left.running && NoProgrammes(r.seen)
      && P.Rest(script, s, end) == multiset(r.seen) + P.Rest(script, r.left, end)
    decreases Calls(s, end)
  {
    var (out, t) := P.Next(script, s);
    P.NextTakesOne(script, s, end);
    if out.Item? {
      if out.value.ProgrammeElement? {
        PutBackKeeps(script, t, out.value, end);
      } else {
        ReadChannelsKeeps(script, t, end);
        var r := ReadChannels(script, t, end);
        OneMore(P.Rest(script, s, end), out.value, P.Rest(script, t, end), r.seen, P.Rest(script, r.left, end));
      }
    }
  }

  lemma PutBackKeeps(script: Script, s: Buffering, e: Element, end: nat)
    ensures P.Rest(script, s.(buffer := s.buffer + [e]), end) == multiset{e} + P.Rest(script, s, end)
  {
    assert multiset(s.buffer + [e]) == multiset(s.buffer) + multiset{e};
  }

  /** The programme phase loses nothing, and at the end of file has everything. */
  lemma {:induction false} ReadProgrammesKeeps(script: Script, s: Buffering, end: nat)
    requires P.EndsAt(script, end) && P.Sound(script, s) && !s.running
    ensures var r := ReadProgrammes(script, s, end);
      && P.Rest(script, s, end) == multiset(r.seen) + P.Rest(script, r.left, end)
      && (r.error.None? ==> P.Rest(script, r.left, end) == multiset{})
    decreases Calls(s, end)
  {
    var (out, t) := P.Next(script, s);
    P.NextTakesOne(script, s, end);
    if out.Item? {
      ReadProgrammesKeeps(script, t, end);
      var r := ReadProgrammes(script, t, end);
      OneMore(P.Rest(script, s, end), out.value, P.Rest(script, t, end), r.seen, P.Rest(script, r.left, end));
    }
  }

  /** The same programmes equally often. */
  ghost predicate SameProgrammes(a: multiset<Element>, b: multiset<Element>) {
    forall e: Element | e.ProgrammeElement? :: a[e] == b[e]
  }

  lemma ProgrammesOnly(all: multiset<Element>, first: seq<Element>, rest: multiset<Element>)
    requires all == multiset(first) + rest && NoProgrammes(first)
    ensures SameProgrammes(rest, all)
  {
    forall e: Element | e.ProgrammeElement? ensures rest[e] == all[e] {
      assert e !in multiset(first);
    }
  }

  /**
   Every programme the source yields reaches `processProgramme` as often as the source yields it,
   unless the source ends in an error; then none reaches it more often.
   */
  lemma EveryProgrammeOnce(x: Source)
    requires Ends(x)
    ensures SourceError(x).None? ==> SameProgrammes(multiset(Programmes(x).seen), P.Rest(x.script, x.start, x.end))
    ensures forall e: Element | e.ProgrammeElement? ::
      multiset(Programmes(x).seen)[e] <= P.Rest(x.script, x.start, x.end)[e]
  {
    TicksKeep(x.script, x.start, x.early, x.end);
    var s := Stopped(Ticks(x.script, x.start, x.early));
    ReadChannelsKeeps(x.script, s, x.end);
    var r := ReadChannels(x.script, s, x.end);
    ProgrammesOnly(P.Rest(x.script, s, x.end), r.seen, P.Rest(x.script, r.left, x.end));
    var restarted := r.left.(running := true);
    assert P.Rest(x.script, restarted, x.end) == P.Rest(x.script, r.left, x.end);
    TicksKeep(x.script, restarted, x.late, x.end);
    ReadProgrammesKeeps(x.script, Stopped(Ticks(x.script, restarted, x.late)), x.end);
  }
}

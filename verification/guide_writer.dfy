/**
 Writing the merged guide from buffering decoders (internal/listing/xmltv/streamer.go): the
 channel phase of every source, then the programme phase of every source. Each phase of a
 source reads what module `GuideSources` says.
 */
module GuideWriter {
  import opened Basics
  import opened Guides
  import opened GuideIntegrity
  import opened GuideSources
  import P = Prefetch

  type Decoder = P.BaseDecoder<Element>

  // ---------- Elements of one source ----------

  function ChannelsOf(seen: seq<Element>, url: string): seq<(Channel, string)> {
    if seen == [] then []
    else
      var n := |seen| - 1;
      ChannelsOf(seen[..n], url) + if seen[n].ChannelElement? then [(seen[n].channel, url)] else []
  }

  function ProgrammesOf(seen: seq<Element>, url: string): seq<(Programme, string)> {
    if seen == [] then []
    else
      var n := |seen| - 1;
      ProgrammesOf(seen[..n], url) + if seen[n].ProgrammeElement? then [(seen[n].programme, url)] else []
  }

  /** The guide after one more element of the channel phase. */
  function AfterChannel(cfg: Config, g: Guide, e: Element, url: string): Guide {
    if e.ChannelElement? then TakeChannel(cfg, g, e.channel, url) else g
  }

  function AfterProgramme(cfg: Config, g: Guide, e: Element, url: string): Guide {
    if e.ProgrammeElement? then TakeProgramme(cfg, g, e.programme, url) else g
  }

  lemma OneMoreChannel(cfg: Config, g: Guide, seen: seq<Element>, e: Element, url: string)
    ensures FoldChannels(cfg, g, ChannelsOf(seen + [e], url))
         == AfterChannel(cfg, FoldChannels(cfg, g, ChannelsOf(seen, url)), e, url)
  {
    assert (seen + [e])[..|seen|] == seen;
    var cs := ChannelsOf(seen, url);
    if e.ChannelElement? {
      assert (cs + [(e.channel, url)])[..|cs|] == cs;
    } else {
      assert cs + [] == cs;
    }
  }

  lemma OneMoreProgramme(cfg: Config, g: Guide, seen: seq<Element>, e: Element, url: string)
    ensures FoldProgrammes(cfg, g, ProgrammesOf(seen + [e], url))
         == AfterProgramme(cfg, FoldProgrammes(cfg, g, ProgrammesOf(seen, url)), e, url)
  {
    assert (seen + [e])[..|seen|] == seen;
    var ps := ProgrammesOf(seen, url);
    if e.ProgrammeElement? {
      assert (ps + [(e.programme, url)])[..|ps|] == ps;
    } else {
      assert ps + [] == ps;
    }
  }

  // ---------- One source ----------

  /** The goroutine ticks up to `times` times and is stopped. */
  method TickAndStop(d: Decoder, times: nat)
    modifies d
    ensures d.S() == Stopped(Ticks(d.script, old(d.S()), times))
  {
    for i := 0 to times
      invariant Ticks(d.script, d.S(), times - i) == Ticks(d.script, old(d.S()), times)
    {
      if d.running {
        d.TickOnce();
      }
    }
    d.StopBuffer();
  }

  /** `whole` is what is left to read after `seen`. */
  predicate Continues(whole: Reading, seen: seq<Element>, rest: Reading) {
    whole == rest.(seen := seen + rest.seen)
  }

  lemma SeenGrows(seen: seq<Element>, e: Element, rest: seq<Element>)
    ensures seen + ([e] + rest) == seen + [e] + rest
  {
  }

  /** A turn of the channel loop that handles an element. */
  lemma ChannelsGoOn(script: Script, s: Buffering, end: nat, whole: Reading, seen: seq<Element>)
    requires P.EndsAt(script, end) && !s.running && Continues(whole, seen, ReadChannels(script, s, end))
    ensures var (out, t) := P.Next(script, s);
      out.Item? && !out.value.ProgrammeElement? ==>
        !t.running && Calls(t, end) < Calls(s, end)
            && Continues(whole, seen + [out.value], ReadChannels(script, t, end))
  {
    var (out, t) := P.Next(script, s);
    if out.Item? && !out.value.ProgrammeElement? {
      SeenGrows(seen, out.value, ReadChannels(script, t, end).seen);
    }
  }

  /** The turn that ends the channel loop; a programme is put back. */
  lemma ChannelsStop(script: Script, s: Buffering, end: nat, whole: Reading, seen: seq<Element>)
    requires P.EndsAt(script, end) && !s.running && Continues(whole, seen, ReadChannels(script, s, end))
    ensures var (out, t) := P.Next(script, s);
      && (out.Failure? ==> whole == Reading(Reported(out.error), seen, t))
      && (out.Item? && out.value.ProgrammeElement? ==>
            whole == Reading(None, seen, t.(buffer := t.buffer + [out.value])))
  {
    assert seen + [] == seen;
  }

  lemma ProgrammesGoOn(script: Script, s: Buffering, end: nat, whole: Reading, seen: seq<Element>)
    requires P.EndsAt(script, end) && !s.running && Continues(whole, seen, ReadProgrammes(script, s, end))
    ensures var (out, t) := P.Next(script, s);
      && (out.Item? ==> !t.running && Calls(t, end) < Calls(s, end)
                        && Continues(whole, seen + [out.value], ReadProgrammes(script, t, end)))
      && (out.Failure? ==> whole == Reading(Reported(out.error), seen, t))
  {
    var (out, t) := P.Next(script, s);
    if out.Item? {
      SeenGrows(seen, out.value, ReadProgrammes(script, t, end).seen);
    } else {
      assert seen + [] == seen;
    }
  }

  method TakeElement(s: Streamer, e: Element, url: string)
    modifies s
    ensures s.G() == AfterChannel(s.cfg, old(s.G()), e, url)
  {
    if e.ChannelElement? {
      s.ProcessChannel(e.channel, url);
    }
  }

  /** The loop of `processChannels`. */
  method ProcessChannels(s: Streamer, d: Decoder, url: string, ghost end: nat)
    returns (error: Option<string>, ghost seen: seq<Element>)
    requires P.EndsAt(d.script, end) && !d.running
    modifies s, d
    ensures Reading(error, seen, d.S()) == ReadChannels(d.script, old(d.S()), end)
    ensures s.G() == FoldChannels(s.cfg, old(s.G()), ChannelsOf(seen, url))
  {
    seen := [];
    ghost var whole, g := ReadChannels(d.script, d.S(), end), s.G();
    assert Continues(whole, [], whole);
    while true
      invariant !d.running && Continues(whole, seen, ReadChannels(d.script, d.S(), end))
      invariant s.G() == FoldChannels(s.cfg, g, ChannelsOf(seen, url))
      decreases Calls(d.S(), end)
    {
      ChannelsGoOn(d.script, d.S(), end, whole, seen);
      ChannelsStop(d.script, d.S(), end, whole, seen);
      var out := d.NextItem();
      if out.Failure? {
        error := Reported(out.error);
        return;
      }
      if out.value.ProgrammeElement? {
        d.AddToBuffer(out.value);
        error := None;
        return;
      }
      TakeElement(s, out.value, url);
      OneMoreChannel(s.cfg, g, seen, out.value, url);
      seen := seen + [out.value];
    }
  }

  method TakeProgrammeElement(s: Streamer, e: Element, url: string)
    modifies s
    ensures s.G() == AfterProgramme(s.cfg, old(s.G()), e, url)
  {
    if e.ProgrammeElement? {
      s.ProcessProgramme(e.programme, url);
    }
  }

  /** The loop of `processProgrammes`. */
  method ProcessProgrammes(s: Streamer, d: Decoder, url: string, ghost end: nat)
    returns (error: Option<string>, ghost seen: seq<Element>)
    requires P.EndsAt(d.script, end) && !d.running
    modifies s, d
    ensures Reading(error, seen, d.S()) == ReadProgrammes(d.script, old(d.S()), end)
    ensures s.G() == FoldProgrammes(s.cfg, old(s.G()), ProgrammesOf(seen, url))
  {
    seen := [];
    ghost var whole, g := ReadProgrammes(d.script, d.S(), end), s.G();
    assert Continues(whole, [], whole);
    while true
      invariant !d.running && Continues(whole, seen, ReadProgrammes(d.script, d.S(), end))
      invariant s.G() == FoldProgrammes(s.cfg, g, ProgrammesOf(seen, url))
      decreases Calls(d.S(), end)
    {
      ProgrammesGoOn(d.script, d.S(), end, whole, seen);
      var out := d.NextItem();
      if out.Failure? {
        error := Reported(out.error);
        return;
      }
      TakeProgrammeElement(s, out.value, url);
      OneMoreProgramme(s.cfg, g, seen, out.value, url);
      seen := seen + [out.value];
    }
  }

  /** `processChannels` with the stop before it and the deferred restart. */
  method ChannelSource(s: Streamer, d: Decoder, x: Source) returns (error: Option<string>)
    requires Ends(x) && d.script == x.script && d.S() == x.start
    modifies s, d
    ensures error == Channels(x).error && d.S() == Channels(x).left
    ensures s.G() == FoldChannels(s.cfg, old(s.G()), ChannelsOf(Channels(x).seen, x.url))
  {
    TicksKeep(x.script, x.start, x.early, x.end);
    TickAndStop(d, x.early);
    ReadChannelsKeeps(x.script, d.S(), x.end);
    ghost var seen;
    error, seen := ProcessChannels(s, d, x.url, x.end);
    var restarted := d.StartBuffering(None);
  }

  method ProgrammeSource(s: Streamer, d: Decoder, x: Source) returns (error: Option<string>)
    requires Ends(x) && d.script == x.script && d.S() == Channels(x).left
    modifies s, d
    ensures error == Programmes(x).error
    ensures s.G() == FoldProgrammes(s.cfg, old(s.G()), ProgrammesOf(Programmes(x).seen, x.url))
  {
    TickAndStop(d, x.late);
    ghost var seen;
    error, seen := ProcessProgrammes(s, d, x.url, x.end);
  }

  // ---------- All sources ----------

  /** `c` and `p` are the two phases of a source. */
  ghost predicate IsRead(x: Source, c: Reading, p: Reading) {
    Ends(x) && c == Channels(x) && p == Programmes(x)
  }

  /** The two phases of every source. */
  ghost predicate AllRead(xs: seq<Source>, cs: seq<Reading>, ps: seq<Reading>) {
    && |cs| == |ps| == |xs|
    && forall i {:trigger IsRead(xs[i], cs[i], ps[i])} | 0 <= i < |xs| :: IsRead(xs[i], cs[i], ps[i])
  }

  /** The channel elements the channel phase handled, source by source. */
  function AllChannels(xs: seq<Source>, cs: seq<Reading>): seq<(Channel, string)>
    requires |cs| <= |xs|
  {
    if cs == [] then []
    else
      var n := |cs| - 1;
      AllChannels(xs, cs[..n]) + ChannelsOf(cs[n].seen, xs[n].url)
  }

  function AllProgrammes(xs: seq<Source>, ps: seq<Reading>): seq<(Programme, string)>
    requires |ps| <= |xs|
  {
    if ps == [] then []
    else
      var n := |ps| - 1;
      AllProgrammes(xs, ps[..n]) + ProgrammesOf(ps[n].seen, xs[n].url)
  }

  lemma {:induction false} FoldChannelsConcat(cfg: Config, g: Guide, first: seq<(Channel, string)>,
                                              second: seq<(Channel, string)>)
    ensures FoldChannels(cfg, g, first + second) == FoldChannels(cfg, FoldChannels(cfg, g, first), second)
  {
    if second == [] {
      assert first + second == first;
    } else {
      var n := |second| - 1;
      assert (first + second)[..|first| + n] == first + second[..n];
      FoldChannelsConcat(cfg, g, first, second[..n]);
    }
  }

  lemma {:induction false} FoldProgrammesConcat(cfg: Config, g: Guide, first: seq<(Programme, string)>,
                                                second: seq<(Programme, string)>)
    ensures FoldProgrammes(cfg, g, first + second) == FoldProgrammes(cfg, FoldProgrammes(cfg, g, first), second)
  {
    if second == [] {
      assert first + second == first;
    } else {
      var n := |second| - 1;
      assert (first + second)[..|first| + n] == first + second[..n];
      FoldProgrammesConcat(cfg, g, first, second[..n]);
    }
  }

  lemma ChannelsOfOneMore(cfg: Config, g: Guide, xs: seq<Source>, cs: seq<Reading>, n: nat)
    requires n < |cs| <= |xs|
    ensures FoldChannels(cfg, g, AllChannels(xs, cs[..n + 1]))
         == FoldChannels(cfg, FoldChannels(cfg, g, AllChannels(xs, cs[..n])), ChannelsOf(cs[n].seen, xs[n].url))
  {
    assert cs[..n + 1][..n] == cs[..n];
    FoldChannelsConcat(cfg, g, AllChannels(xs, cs[..n]), ChannelsOf(cs[n].seen, xs[n].url));
  }

  lemma ProgrammesOfOneMore(cfg: Config, g: Guide, xs: seq<Source>, ps: seq<Reading>, n: nat)
    requires n < |ps| <= |xs|
    ensures FoldProgrammes(cfg, g, AllProgrammes(xs, ps[..n + 1]))
         == FoldProgrammes(cfg, FoldProgrammes(cfg, g, AllProgrammes(xs, ps[..n])), ProgrammesOf(ps[n].seen, xs[n].url))
  {
    assert ps[..n + 1][..n] == ps[..n];
    FoldProgrammesConcat(cfg, g, AllProgrammes(xs, ps[..n]), ProgrammesOf(ps[n].seen, xs[n].url));
  }

  /** The decoder reads this source, and its buffering stands at `at`. */
  ghost predicate StandsAt(d: Decoder, x: Source, at: Buffering)
    reads d
  {
    d.script == x.script && d.S() == at
  }

  /** The decoders are different objects; those from `i` on stand at the start, the others behind the channel phase. */
  ghost predicate AllStand(ds: seq<Decoder>, xs: seq<Source>, cs: seq<Reading>, i: nat)
    reads ds
  {
    && |cs| == |xs| == |ds| && (forall j, k | 0 <= j < k < |ds| :: ds[j] != ds[k])
    && forall j | 0 <= j < |ds| :: StandsAt(ds[j], xs[j], if j < i then cs[j].left else xs[j].start)
  }

  /** The channel phase of the i-th source. */
  method ChannelSourceAt(s: Streamer, ds: seq<Decoder>, xs: seq<Source>, i: nat, ghost cs: seq<Reading>,
                         ghost p: Reading)
    returns (error: Option<string>)
    requires AllStand(ds, xs, cs, i) && i < |ds| && IsRead(xs[i], cs[i], p)
    modifies s, ds[i]
    ensures error == cs[i].error && AllStand(ds, xs, cs, i + 1)
    ensures s.G() == FoldChannels(s.cfg, old(s.G()), ChannelsOf(cs[i].seen, xs[i].url))
  {
    assert StandsAt(ds[i], xs[i], xs[i].start);
    error := ChannelSource(s, ds[i], xs[i]);
  }

  /** The channel phase; `done` counts the sources it handled. */
  method ChannelPhase(s: Streamer, ds: seq<Decoder>, xs: seq<Source>, ghost cs: seq<Reading>, ghost ps: seq<Reading>)
    returns (error: Option<string>, ghost done: nat)
    requires AllRead(xs, cs, ps) && AllStand(ds, xs, cs, 0)
    modifies s, ds
    ensures done <= |cs| && s.G() == FoldChannels(s.cfg, old(s.G()), AllChannels(xs, cs[..done]))
    ensures error.None? ==> done == |cs| && AllStand(ds, xs, cs, done)
    ensures error.None? ==> forall i | 0 <= i < |cs| :: cs[i].error.None?
    ensures error.Some? ==> done > 0 && cs[done - 1].error == error
  {
    error, done := None, 0;
    ghost var g := s.G();
    for i := 0 to |ds|
      invariant error.None? && done == i && AllStand(ds, xs, cs, i)
      invariant s.G() == FoldChannels(s.cfg, g, AllChannels(xs, cs[..i]))
      invariant forall j | 0 <= j < i :: cs[j].error.None?
    {
      assert IsRead(xs[i], cs[i], ps[i]);
      error := ChannelSourceAt(s, ds, xs, i, cs, ps[i]);
      ChannelsOfOneMore(s.cfg, g, xs, cs, i);
      done := i + 1;
      if error.Some? {
        return;
      }
    }
  }

  /** The decoders from `i` on stand behind the channel phase. */
  ghost predicate Waiting(ds: seq<Decoder>, xs: seq<Source>, cs: seq<Reading>, i: nat)
    reads ds
  {
    && |cs| == |xs| == |ds| && (forall j, k | 0 <= j < k < |ds| :: ds[j] != ds[k])
    && forall j {:trigger StandsAt(ds[j], xs[j], cs[j].left)} | i <= j < |ds| :: StandsAt(ds[j], xs[j], cs[j].left)
  }

  /** The programme phase of the i-th source. */
  method ProgrammeSourceAt(s: Streamer, ds: seq<Decoder>, xs: seq<Source>, i: nat, ghost cs: seq<Reading>,
                           ghost p: Reading)
    returns (error: Option<string>)
    requires Waiting(ds, xs, cs, i) && i < |ds| && IsRead(xs[i], cs[i], p)
    modifies s, ds[i]
    ensures error == p.error && Waiting(ds, xs, cs, i + 1)
    ensures s.G() == FoldProgrammes(s.cfg, old(s.G()), ProgrammesOf(p.seen, xs[i].url))
  {
    assert StandsAt(ds[i], xs[i], cs[i].left);
    error := ProgrammeSource(s, ds[i], xs[i]);
    forall j | i < j < |ds| ensures StandsAt(ds[j], xs[j], cs[j].left) {
      assert old(StandsAt(ds[j], xs[j], cs[j].left));
    }
  }

  /** The programme phase; `done` counts the sources it handled. */
  method ProgrammePhase(s: Streamer, ds: seq<Decoder>, xs: seq<Source>, ghost cs: seq<Reading>, ghost ps: seq<Reading>)
    returns (error: Option<string>, ghost done: nat)
    requires AllRead(xs, cs, ps) && Waiting(ds, xs, cs, 0)
    modifies s, ds
    ensures done <= |ps| && s.G() == FoldProgrammes(s.cfg, old(s.G()), AllProgrammes(xs, ps[..done]))
    ensures error.None? ==> done == |ps| && forall i | 0 <= i < |ps| :: ps[i].error.None?
    ensures error.Some? ==> done > 0 && ps[done - 1].error == error
  {
    error, done := None, 0;
    ghost var g := s.G();
    for i := 0 to |ds|
      invariant error.None? && done == i && Waiting(ds, xs, cs, i)
      invariant s.G() == FoldProgrammes(s.cfg, g, AllProgrammes(xs, ps[..i]))
      invariant forall j | 0 <= j < i :: ps[j].error.None?
    {
      assert IsRead(xs[i], cs[i], ps[i]);
      error := ProgrammeSourceAt(s, ds, xs, i, cs, ps[i]);
      ProgrammesOfOneMore(s.cfg, g, xs, ps, i);
      done := i + 1;
      if error.Some? {
        return;
      }
    }
  }

  lemma Readings(xs: seq<Source>) returns (cs: seq<Reading>, ps: seq<Reading>)
    requires forall i | 0 <= i < |xs| :: Ends(xs[i])
    ensures AllRead(xs, cs, ps)
  {
    cs, ps := [], [];
    for i := 0 to |xs|
      invariant |cs| == |ps| == i
      invariant forall j {:trigger IsRead(xs[j], cs[j], ps[j])} | 0 <= j < i :: IsRead(xs[j], cs[j], ps[j])
    {
      cs, ps := cs + [Channels(xs[i])], ps + [Programmes(xs[i])];
    }
  }

  lemma AllConserved(xs: seq<Source>, cs: seq<Reading>, ps: seq<Reading>)
    requires AllRead(xs, cs, ps)
    ensures forall i | 0 <= i < |xs| && cs[i].error.None? && ps[i].error.None? ::
      SameProgrammes(multiset(ps[i].seen), P.Rest(xs[i].script, xs[i].start, xs[i].end))
  {
    forall i | 0 <= i < |xs| && cs[i].error.None? && ps[i].error.None?
      ensures SameProgrammes(multiset(ps[i].seen), P.Rest(xs[i].script, xs[i].start, xs[i].end))
    {
      assert IsRead(xs[i], cs[i], ps[i]);
      EveryProgrammeOnce(xs[i]);
    }
  }

  /** Both phases; `n` and `m` count the sources each handled. */
  method BothPhases(s: Streamer, ds: seq<Decoder>, xs: seq<Source>, ghost cs: seq<Reading>, ghost ps: seq<Reading>)
    returns (error: Option<string>, ghost n: nat, ghost m: nat)
    requires AllRead(xs, cs, ps) && AllStand(ds, xs, cs, 0)
    modifies s, ds
    ensures n <= |cs| && m <= |ps|
    ensures s.G() == FoldProgrammes(s.cfg, FoldChannels(s.cfg, old(s.G()), AllChannels(xs, cs[..n])),
                                    AllProgrammes(xs, ps[..m]))
    ensures error.None? ==> cs[..n] == cs && ps[..m] == ps
    ensures error.None? <==> forall i | 0 <= i < |cs| :: cs[i].error.None? && ps[i].error.None?
    ensures error.Some? ==> exists i :: 0 <= i < |cs| && (error == cs[i].error || error == ps[i].error)
  {
    error, n := ChannelPhase(s, ds, xs, cs, ps);
    m := 0;
    assert AllProgrammes(xs, ps[..0]) == [];
    if error.None? {
      error, m := ProgrammePhase(s, ds, xs, cs, ps);
    }
  }

  const NO_SOURCES := "no EPG sources found"
  const NO_DATA := "no data in subscriptions"

  /**
   The whole guide from decoders whose goroutines may have run. It is sound whatever the sources hold
   and whichever fails; `read` is set when every source was read to the end, which is exactly when none
   of them makes the guide end with an error. Then the guide is the two folds over what the sources'
   phases handle, and every source's programmes are all among that, as often as it yields them.
   */
  method WriteTo(s: Streamer, ds: seq<Decoder>, xs: seq<Source>)
    returns (error: Option<string>, read: bool, ghost cs: seq<Reading>, ghost ps: seq<Reading>)
    requires |ds| == |xs| && (forall i, j | 0 <= i < j < |ds| :: ds[i] != ds[j])
    requires forall i | 0 <= i < |xs| :: Ends(xs[i]) && ds[i].script == xs[i].script && ds[i].S() == xs[i].start
    requires s.G() == EMPTY
    modifies s, ds
    ensures Integrity(s.cfg, s.G().out)
    ensures AllRead(xs, cs, ps)
    ensures read <==> forall i | 0 <= i < |xs| :: cs[i].error.None? && ps[i].error.None?
    ensures read ==>
      s.G() == FoldProgrammes(s.cfg, FoldChannels(s.cfg, EMPTY, AllChannels(xs, cs)), AllProgrammes(xs, ps))
    ensures read ==> forall i | 0 <= i < |xs| ::
      SameProgrammes(multiset(ps[i].seen), P.Rest(xs[i].script, xs[i].start, xs[i].end))
    ensures read ==> error == if xs == [] then Some(NO_SOURCES) else if s.out == [] then Some(NO_DATA) else None
    ensures !read ==> error.Some? && exists i :: 0 <= i < |xs| && (error == cs[i].error || error == ps[i].error)
  {
    cs, ps := Readings(xs);
    if |xs| == 0 {
      return Some(NO_SOURCES), true, cs, ps;
    }
    ghost var n, m;
    error, n, m := BothPhases(s, ds, xs, cs, ps);
    read := error.None?;
    AllConserved(xs, cs, ps);
    if read && s.out == [] {
      error := Some(NO_DATA);
    }
    GuideIsSound(s.cfg, AllChannels(xs, cs[..n]), AllProgrammes(xs, ps[..m]));
  }
}

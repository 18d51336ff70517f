/**
 The cache is transparent: whatever fails or dies, a data file is the complete body of
 the download that published it, and a hit gives back what that download gave.
 */
module HttpCacheSafety {
  import opened Basics
  import opened HttpCache

  // ---------- The invariant ----------

  ghost predicate IsStored(c: Codec, opt: Options, file: Bytes, src: Option<Source>) {
    && src.Some? && Body(c, src.value).Some? && HasItsLength(src.value)
    && Stored(c, opt.compression, src.value) == Some(file)
  }

  /** The source gave as many bytes as it announced, if it announced a number. */
  predicate HasItsLength(src: Source) {
    src.length > 0 ==> |src.raw| == src.length
  }

  /** What is given so far is a beginning of the body, all of it at the end. */
  ghost predicate IsProgress(body: Option<Bytes>, given: Bytes, eof: bool) {
    (body.Some? ==> given <= body.value) && (eof ==> body == Some(given))
  }

  ghost predicate DownloadOk(c: Codec, d: Download) {
    && IsProgress(Body(c, d.src), d.given, d.eof)
    && d.pulled <= |d.src.raw| && (d.eof ==> d.pulled == |d.src.raw|)
    && (!d.src.gzipped ==> d.given == d.src.raw[..d.pulled])
  }

  ghost predicate PcOk(c: Codec, opt: Options, pc: Pc, tmp: Option<Bytes>) {
    match pc
    case Serving(file, origin, given, eof) =>
      IsStored(c, opt, file, origin) && IsProgress(Body(c, origin.value), given, eof)
    case Downloading(d) =>
      DownloadOk(c, d) && (tmp.Some? && (!opt.compression || d.src.gzipped) ==> tmp.value == FileSoFar(opt, d, []))
    case DropData(d) =>
      && DownloadOk(c, d) && d.eof && HasItsLength(d.src)
      && (tmp.Some? ==> IsStored(c, opt, tmp.value, Some(d.src)))
    case Publish(d) =>
      && DownloadOk(c, d) && d.eof && HasItsLength(d.src)
      && (tmp.Some? ==> IsStored(c, opt, tmp.value, Some(d.src)))
    case _ => true
  }

  ghost predicate Inv(c: Codec, opt: Options, s: State) {
    (s.data.Some? ==> IsStored(c, opt, s.data.value, s.published)) && PcOk(c, opt, s.pc, s.tmp)
  }

  /** In all four combinations of compression here and gzip there, the file decodes to the body. */
  lemma StoredDecodes(c: Codec, compression: bool, src: Source)
    requires Inverse(c) && Body(c, src).Some?
    ensures Stored(c, compression, src).Some?
    ensures Decoded(c, compression, Stored(c, compression, src).value) == Body(c, src)
  {
  }

  /** At the end of a download the file in progress is the finished file, once the compressor is closed. */
  lemma FileIsFinished(c: Codec, opt: Options, d: Download)
    requires DownloadOk(c, d) && d.eof
    ensures Stored(c, opt.compression, d.src)
         == Some(if opt.compression && !d.src.gzipped then c.zip(d.given) else FileSoFar(opt, d, []))
  {
    assert d.src.raw[..|d.src.raw|] == d.src.raw;
  }

  lemma DeliverKeepsInv(c: Codec, opt: Options, s: State, chunk: Bytes, pulled: nat, eof: bool, flushed: Bytes)
    requires Inv(c, opt, s) && s.pc.Downloading? && CanDeliver(c, s.pc.d, chunk, pulled, eof)
    ensures Inv(c, opt, ApplyDeliver(opt, s, chunk, pulled, eof, flushed))
  {
  }

  lemma CloseKeepsInv(c: Codec, opt: Options, s: State, ok: bool)
    requires Inv(c, opt, s) && (s.pc.Serving? || s.pc.Downloading?)
    ensures Inv(c, opt, ApplyClose(c, opt, s, ok))
  {
    if s.pc.Downloading? && IsComplete(s.pc.d) {
      FileIsFinished(c, opt, s.pc.d);
    }
  }

  lemma ServeKeepsInv(c: Codec, opt: Options, s: State, chunk: Bytes, eof: bool)
    requires Inverse(c) && Inv(c, opt, s) && s.pc.Serving? && CanServe(c, opt, s.pc, chunk, eof)
    ensures Inv(c, opt, Apply(c, opt, s, Serve(chunk, eof)))
  {
    StoredDecodes(c, opt.compression, s.pc.origin.value);
  }

  lemma OpenKeepsInv(c: Codec, opt: Options, s: State, ok: bool)
    requires Inv(c, opt, s) && s.pc.OpenData?
    ensures Inv(c, opt, Apply(c, opt, s, OpenFile(ok)))
  {
  }

  lemma FilesKeepInv(c: Codec, opt: Options, s: State, step: Step)
    requires Inv(c, opt, s) && Enabled(c, opt, s, step)
        && (step.Replace? || step.Clean? || step.CreateFile? || step.Vanish?)
    ensures Inv(c, opt, Apply(c, opt, s, step))
  {
  }

  lemma MetadataKeepsInv(c: Codec, opt: Options, s: State, step: Step)
    requires Inv(c, opt, s) && Enabled(c, opt, s, step) && (step.Check? || step.CleanEntry?)
    ensures Inv(c, opt, Apply(c, opt, s, step))
  {
  }

  lemma SaveKeepsInv(c: Codec, opt: Options, s: State, ok: bool, now: int)
    requires Inv(c, opt, s) && s.pc.Saving?
    ensures Inv(c, opt, ApplySave(opt, s, ok, now))
  {
  }

  lemma StepKeepsInv(c: Codec, opt: Options, s: State, step: Step)
    requires Inverse(c) && Inv(c, opt, s) && Enabled(c, opt, s, step)
    ensures Inv(c, opt, Apply(c, opt, s, step))
  {
    match step {
      case Deliver(chunk, pulled, eof, flushed) => DeliverKeepsInv(c, opt, s, chunk, pulled, eof, flushed);
      case Close(ok) => CloseKeepsInv(c, opt, s, ok);
      case Serve(chunk, eof) => ServeKeepsInv(c, opt, s, chunk, eof);
      case OpenFile(ok) => OpenKeepsInv(c, opt, s, ok);
      case Open =>
      case Respond(_) =>
      case Die =>
      case Check(_, _) => MetadataKeepsInv(c, opt, s, step);
      case Save(ok, now) => SaveKeepsInv(c, opt, s, ok, now);
      case CleanEntry(_) => MetadataKeepsInv(c, opt, s, step);
      case _ => FilesKeepInv(c, opt, s, step);
    }
  }

  /** In every reachable state, a data file is the finished file of a complete download. */
  lemma {:induction false} EveryRunIsSafe(c: Codec, opt: Options, states: seq<State>, steps: seq<Step>, n: nat)
    requires Inverse(c) && IsRun(c, opt, states, steps) && n < |states|
    ensures Inv(c, opt, states[n])
  {
    if n > 0 {
      EveryRunIsSafe(c, opt, states, steps, n - 1);
      StepKeepsInv(c, opt, states[n - 1], steps[n - 1]);
    }
  }

  // ---------- A hit gives what a miss gave ----------

  /** At step `m` a download of `src` that had been read to its end became the data file. */
  ghost predicate PublishedAt(c: Codec, states: seq<State>, steps: seq<Step>, m: nat, src: Source) {
    && m + 1 < |states| && m < |steps| && states[m].pc.Publish? && steps[m].Replace?
    && states[m].pc.d.src == src && states[m].pc.d.eof && HasItsLength(src)
    && Body(c, src) == Some(states[m].pc.d.given)
    && states[m + 1].data == states[m].tmp
  }

  lemma {:induction false} PublishedByAMiss(c: Codec, opt: Options, states: seq<State>, steps: seq<Step>, n: nat)
    requires Inverse(c) && IsRun(c, opt, states, steps) && n < |states| && states[n].published.Some?
    ensures exists m: nat :: m < n && PublishedAt(c, states, steps, m, states[n].published.value)
  {
    var m := n - 1;
    EveryRunIsSafe(c, opt, states, steps, m);
    if states[n].published == states[m].published {
      PublishedByAMiss(c, opt, states, steps, m);
    } else {
      assert PublishedAt(c, states, steps, m, states[n].published.value);
    }
  }

  lemma ServingSince(c: Codec, opt: Options, s: State, step: Step)
    requires Enabled(c, opt, s, step) && Apply(c, opt, s, step).pc.Serving?
    ensures Apply(c, opt, s, step).pc.origin == if s.pc.Serving? then s.pc.origin else s.published
  {
  }

  lemma {:induction false} ServedFromAMiss(c: Codec, opt: Options, states: seq<State>, steps: seq<Step>, n: nat)
    requires Inverse(c) && IsRun(c, opt, states, steps) && n < |states| && states[n].pc.Serving?
    ensures states[n].pc.origin.Some?
    ensures exists m: nat :: m < n && PublishedAt(c, states, steps, m, states[n].pc.origin.value)
  {
    EveryRunIsSafe(c, opt, states, steps, n);
    var m := n - 1;
    ServingSince(c, opt, states[m], steps[m]);
    if states[m].pc.Serving? {
      ServedFromAMiss(c, opt, states, steps, m);
    } else {
      PublishedByAMiss(c, opt, states, steps, m);
    }
  }

  /** The hit at `n` has given a beginning of what the complete miss at `m` gave, and at its end all of it. */
  ghost predicate GivesTheSame(states: seq<State>, m: nat, n: nat)
    requires m < n < |states| && states[n].pc.Serving?
  {
    && states[m].pc.Publish? && states[m].pc.d.eof && HasItsLength(states[m].pc.d.src)
    && states[n].pc.given <= states[m].pc.d.given
    && (states[n].pc.eof ==> states[n].pc.given == states[m].pc.d.given)
  }

  /**
   Read to its end, a hit has given exactly what an earlier miss gave to its reader, and
   before that a beginning of it.
   */
  lemma HitIsTransparent(c: Codec, opt: Options, states: seq<State>, steps: seq<Step>, n: nat)
    requires Inverse(c) && IsRun(c, opt, states, steps) && n < |states| && states[n].pc.Serving?
    ensures exists m: nat :: m < n && GivesTheSame(states, m, n)
  {
    EveryRunIsSafe(c, opt, states, steps, n);
    ServedFromAMiss(c, opt, states, steps, n);
    var m: nat :| m < n && PublishedAt(c, states, steps, m, states[n].pc.origin.value);
    assert GivesTheSame(states, m, n);
  }

  // ---------- A hit is justified ----------

  /** The metadata read at this step is young enough, or unexpired, or the server says unmodified. */
  ghost predicate Justifies(opt: Options, s: State, step: Step) {
    s.pc.LoadMeta? && step.Check? && s.meta.Some? && s.meta.value.Meta?
    && var m := s.meta.value;
       || (opt.ttl > 0 && step.now - m.cachedAt < opt.ttl)
       || (m.validators.expires.Some? && m.validators.expires.value > step.now)
       || IsUnmodified(m.validators.lastModified, step.head)
  }

  /** The server was asked about a date and answered 304, or 200 with a date not after it. */
  predicate IsUnmodified(since: Option<int>, head: Head) {
    since.Some? && head.Answer?
    && (head.status == 304
        || (head.status == 200 && head.validators.lastModified.Some?
             && head.validators.lastModified.value <= since.value))
  }

  predicate FromCache(pc: Pc) {
    pc.OpenData? || pc.Serving? || (pc.Saving? && !pc.purpose.AfterDownload?)
  }

  lemma EntersByCheck(c: Codec, opt: Options, s: State, step: Step)
    requires Enabled(c, opt, s, step) && FromCache(Apply(c, opt, s, step).pc) && !FromCache(s.pc)
    ensures Justifies(opt, s, step)
  {
  }

  /** Nothing is served from the cache without a decision that allowed it. */
  lemma {:induction false} HitIsJustified(c: Codec, opt: Options, states: seq<State>, steps: seq<Step>, n: nat)
    requires IsRun(c, opt, states, steps) && n < |states| && FromCache(states[n].pc)
    ensures exists m: nat :: m < n && Justifies(opt, states[m], steps[m])
  {
    var m := n - 1;
    if FromCache(states[m].pc) {
      HitIsJustified(c, opt, states, steps, m);
    } else {
      EntersByCheck(c, opt, states[m], steps[m]);
    }
  }

  /** Once metadata has been read, the reader downloads exactly when none of these holds. */
  lemma DownloadsIffUnjustified(c: Codec, opt: Options, s: State, step: Step)
    requires s.pc.LoadMeta? && step.Check?
    ensures Apply(c, opt, s, step).pc.Fetch? <==> !Justifies(opt, s, step)
    ensures Apply(c, opt, s, step).pc.OpenData? || Apply(c, opt, s, step).pc.Saving? <==> Justifies(opt, s, step)
  {
  }

  // ---------- Metadata and data ----------

  /** Inside `Close` and `Cleanup` metadata may be there without data. */
  predicate Replacing(pc: Pc) {
    pc.Publish? || (pc.Cleaning? && !pc.next.TmpMeta?)
  }

  ghost predicate Tidy(s: State) {
    && (s.meta.Some? && !Replacing(s.pc) ==> s.data.Some?)
    && (s.pc.LoadMeta? || s.pc.Saving? || s.pc.OpenData? ==> s.data.Some?)
  }

  lemma StepKeepsTidy(c: Codec, opt: Options, s: State, step: Step)
    requires Enabled(c, opt, s, step) && (!s.disturbed ==> Tidy(s))
    ensures !Apply(c, opt, s, step).disturbed ==> Tidy(Apply(c, opt, s, step))
  {
  }

  /**
   Between operations metadata implies a complete data file, as long as nobody died inside
   an operation, no removal was refused and no cleaner run overlapped one.
   */
  lemma {:induction false} MetadataImpliesBody(c: Codec, opt: Options, states: seq<State>, steps: seq<Step>, n: nat)
    requires Inverse(c) && IsRun(c, opt, states, steps) && n < |states| && !states[n].disturbed
    ensures Tidy(states[n])
    ensures states[n].meta.Some? && Quiet(states[n].pc) ==>
      states[n].data.Some? && IsStored(c, opt, states[n].data.value, states[n].published)
  {
    EveryRunIsSafe(c, opt, states, steps, n);
    if n > 0 {
      assert !states[n - 1].disturbed;
      MetadataImpliesBody(c, opt, states, steps, n - 1);
      StepKeepsTidy(c, opt, states[n - 1], steps[n - 1]);
    }
  }
}

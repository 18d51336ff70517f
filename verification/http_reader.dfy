/**
 `SaveMetadata`, `Cleanup` and `Close` of a reader as uninterrupted statement sequences
 over the four files of its entry (internal/httpclient/reader.go, storage.go). `ok` says
 which file operations succeed. Each sequence is an execution of the step machine.
 */
module HttpReaders {
  import opened Basics
  import opened HttpCache

  /** The file operations of a reader. */
  datatype Call = MetaCall(stage: Stage) | Removal(file: FileKind) | DropOld | RenameTmp

  predicate Saves(ok: Call -> bool) {
    ok(MetaCall(CreateTmpMeta)) && ok(MetaCall(WriteTmpMeta)) && ok(MetaCall(RenameMeta))
  }

  predicate AllRemoved(ok: Call -> bool) {
    ok(Removal(Data)) && ok(Removal(Tmp)) && ok(Removal(MetaFile)) && ok(Removal(TmpMeta))
  }

  // ---------- What the sequences leave ----------

  function Kept<T>(file: Option<T>, removed: bool): Option<T> {
    if removed then None else file
  }

  function NewMeta(opt: Options, v: Validators, now: int): Meta {
    Meta(now, Some(opt.retention), v)
  }

  /** The two metadata files after `SaveMetadata`. */
  function SavedFiles(opt: Options, meta: Option<Meta>, tmpMeta: Option<Meta>, v: Validators, ok: Call -> bool,
                      now: int)
    : (Option<Meta>, Option<Meta>)
  {
    if !ok(MetaCall(CreateTmpMeta)) then (meta, Kept(tmpMeta, ok(MetaCall(RemoveTmpMeta))))
    else if !ok(MetaCall(WriteTmpMeta)) then (meta, Some(Garbage))
    else if !ok(MetaCall(RenameMeta)) then (Kept(meta, ok(MetaCall(RemoveMeta))), Some(NewMeta(opt, v, now)))
    else (Some(NewMeta(opt, v, now)), None)
  }

  function Saved(opt: Options, s: State, ok: Call -> bool, now: int): State
    requires s.pc.Saving?
  {
    var (meta, tmpMeta) := SavedFiles(opt, s.meta, s.tmpMeta, s.pc.validators, ok, now);
    s.(meta := meta, tmpMeta := tmpMeta, pc := AfterSave(s.pc.purpose, Saves(ok)))
  }

  function CleanedUp(s: State, ok: Call -> bool): State {
    s.(data := Kept(s.data, ok(Removal(Data))), tmp := Kept(s.tmp, ok(Removal(Tmp))),
       meta := Kept(s.meta, ok(Removal(MetaFile))), tmpMeta := Kept(s.tmpMeta, ok(Removal(TmpMeta))),
       pc := Idle, disturbed := s.disturbed || !AllRemoved(ok))
  }

  function Finished(c: Codec, opt: Options, tmp: Option<Bytes>, d: Download): Option<Bytes> {
    if opt.compression && !d.src.gzipped then Written(tmp, c.zip(d.given)) else tmp
  }

  /** After the data file of a complete download has been replaced. */
  function Published(s: State, file: Bytes, src: Source): State {
    s.(data := Some(file), tmp := None, published := Some(src),
       pc := Saving(RemoveTmpMeta, AfterDownload, src.validators))
  }

  /** After `Close` of a download, its closers having succeeded. */
  function Closed(c: Codec, opt: Options, s: State, ok: Call -> bool, now: int): State
    requires s.pc.Downloading?
  {
    var d, tmp := s.pc.d, Finished(c, opt, s.tmp, s.pc.d);
    if !IsComplete(d) then CleanedUp(s.(tmp := tmp), ok)
    else if !ok(RenameTmp) || tmp.None? then CleanedUp(s.(tmp := tmp, data := Kept(s.data, ok(DropOld))), ok)
    else
      var t := Saved(opt, Published(s, tmp.value, d.src), ok, now);
      if Saves(ok) then t else CleanedUp(t, ok)
  }

  /** A complete download whose file operations succeed is cached; an incomplete one leaves nothing. */
  lemma CloseOutcome(c: Codec, opt: Options, s: State, ok: Call -> bool, now: int)
    requires s.pc.Downloading? && AllRemoved(ok)
    ensures var t := Closed(c, opt, s, ok, now);
      && t.pc.Idle? && t.tmp.None? && t.tmpMeta.None? && (t.data.Some? <==> t.meta.Some?)
      && (t.data.Some? <==> IsComplete(s.pc.d) && s.tmp.Some? && ok(RenameTmp) && Saves(ok))
      && (t.data.Some? ==>
            t.data == Finished(c, opt, s.tmp, s.pc.d) && t.meta == Some(NewMeta(opt, s.pc.d.src.validators, now)))
  {
  }

  // ---------- The code ----------

  class Reader {
    const codec: Codec
    const opt: Options
    var data: Option<Bytes>
    var tmp: Option<Bytes>
    var meta: Option<Meta>
    var tmpMeta: Option<Meta>

    method SaveMetadata(v: Validators, ok: Call -> bool, now: int) returns (saved: bool)
      modifies this`meta, this`tmpMeta
      ensures (meta, tmpMeta) == SavedFiles(opt, old(meta), old(tmpMeta), v, ok, now)
      ensures saved == Saves(ok)
    {
      if ok(MetaCall(RemoveTmpMeta)) {
        tmpMeta := None;
      }
      if !ok(MetaCall(CreateTmpMeta)) {
        return false;
      }
      tmpMeta := Some(Garbage);
      if !ok(MetaCall(WriteTmpMeta)) {
        return false;
      }
      tmpMeta := Some(NewMeta(opt, v, now));
      if ok(MetaCall(RemoveMeta)) {
        meta := None;
      }
      if !ok(MetaCall(RenameMeta)) {
        return false;
      }
      meta, tmpMeta := tmpMeta, None;
      return true;
    }

    method Cleanup(ok: Call -> bool)
      modifies this
      ensures data == Kept(old(data), ok(Removal(Data))) && tmp == Kept(old(tmp), ok(Removal(Tmp)))
      ensures meta == Kept(old(meta), ok(Removal(MetaFile))) && tmpMeta == Kept(old(tmpMeta), ok(Removal(TmpMeta)))
    {
      if ok(Removal(Data)) {
        data := None;
      }
      if ok(Removal(Tmp)) {
        tmp := None;
      }
      if ok(Removal(MetaFile)) {
        meta := None;
      }
      if ok(Removal(TmpMeta)) {
        tmpMeta := None;
      }
    }

    /** `s` is the state of the machine with these files. */
    ghost predicate Has(s: State)
      reads this
    {
      (data, tmp, meta, tmpMeta) == (s.data, s.tmp, s.meta, s.tmpMeta)
    }

    method Close(ghost s: State, d: Download, closersOk: bool, ok: Call -> bool, now: int)
      requires Has(s) && s.pc == Downloading(d)
      modifies this
      ensures if closersOk then Has(Closed(codec, opt, s, ok, now)) else Has(s)
    {
      if !closersOk {
        return;
      }
      tmp := Finished(codec, opt, tmp, d);
      if !IsComplete(d) {
        Cleanup(ok);
        return;
      }
      if ok(DropOld) {
        data := None;
      }
      if !ok(RenameTmp) || tmp.None? {
        Cleanup(ok);
        return;
      }
      data, tmp := tmp, None;
      var saved := SaveMetadata(d.src.validators, ok, now);
      if !saved {
        Cleanup(ok);
      }
    }
  }

  // ---------- The sequences as executions of the machine ----------

  /** Where steps taken one after the other lead, if all are enabled. */
  function Run(c: Codec, opt: Options, s: State, steps: seq<Step>): Option<State>
    decreases |steps|
  {
    if steps == [] then Some(s)
    else if !Enabled(c, opt, s, steps[0]) then None
    else Run(c, opt, Apply(c, opt, s, steps[0]), steps[1..])
  }

  lemma RunFirst(c: Codec, opt: Options, s: State, step: Step, rest: seq<Step>)
    requires Enabled(c, opt, s, step)
    ensures Run(c, opt, s, [step] + rest) == Run(c, opt, Apply(c, opt, s, step), rest)
  {
    assert ([step] + rest)[1..] == rest;
  }

  lemma {:induction false} RunConcat(c: Codec, opt: Options, s: State, first: seq<Step>, t: State, second: seq<Step>)
    requires Run(c, opt, s, first) == Some(t)
    ensures Run(c, opt, s, first + second) == Run(c, opt, t, second)
    decreases |first|
  {
    if first == [] {
      assert first + second == second;
    } else {
      assert (first + second)[1..] == first[1..] + second;
      RunConcat(c, opt, Apply(c, opt, s, first[0]), first[1..], t, second);
    }
  }

  /** The steps of `SaveMetadata` from a stage on. */
  function SaveSteps(stage: Stage, ok: Call -> bool, now: int): seq<Step>
    decreases StagesLeft(stage)
  {
    [Save(ok(MetaCall(stage)), now)] + if Stops(stage, ok) then [] else SaveSteps(NextStage(stage), ok, now)
  }

  function StagesLeft(stage: Stage): nat {
    match stage
    case RemoveTmpMeta => 4
    case CreateTmpMeta => 3
    case WriteTmpMeta => 2
    case RemoveMeta => 1
    case RenameMeta => 0
  }

  function NextStage(stage: Stage): Stage {
    match stage
    case RemoveTmpMeta => CreateTmpMeta
    case CreateTmpMeta => WriteTmpMeta
    case WriteTmpMeta => RemoveMeta
    case RemoveMeta => RenameMeta
    case RenameMeta => RenameMeta
  }

  /** The last stage, or one that fails and may not. */
  predicate Stops(stage: Stage, ok: Call -> bool) {
    stage.RenameMeta? || (!ok(MetaCall(stage)) && (stage.CreateTmpMeta? || stage.WriteTmpMeta?))
  }

  /** The state after one stage; `tmpMeta` is there from its creation on. */
  lemma {:induction false} SaveRunsFrom(c: Codec, opt: Options, s: State, ok: Call -> bool, now: int)
    requires s.pc.Saving?
    requires s.pc.stage.WriteTmpMeta? || s.pc.stage.RemoveMeta? || s.pc.stage.RenameMeta? ==> s.tmpMeta.Some?
    ensures var steps := SaveSteps(s.pc.stage, ok, now);
      Run(c, opt, s, steps) == Some(SavedFrom(opt, s, ok, now))
    decreases StagesLeft(s.pc.stage)
  {
    var step := Save(ok(MetaCall(s.pc.stage)), now);
    var t := ApplySave(opt, s, ok(MetaCall(s.pc.stage)), now);
    if Stops(s.pc.stage, ok) {
      RunFirst(c, opt, s, step, []);
    } else {
      RunFirst(c, opt, s, step, SaveSteps(NextStage(s.pc.stage), ok, now));
      SaveRunsFrom(c, opt, t, ok, now);
    }
  }

  function SavedFrom(opt: Options, s: State, ok: Call -> bool, now: int): State
    requires s.pc.Saving?
    decreases StagesLeft(s.pc.stage)
  {
    var t := ApplySave(opt, s, ok(MetaCall(s.pc.stage)), now);
    if Stops(s.pc.stage, ok) then t else SavedFrom(opt, t, ok, now)
  }

  lemma SavedFromStart(opt: Options, s: State, ok: Call -> bool, now: int)
    requires s.pc.Saving? && s.pc.stage.RemoveTmpMeta?
    ensures SavedFrom(opt, s, ok, now) == Saved(opt, s, ok, now)
  {
    var s1 := ApplySave(opt, s, ok(MetaCall(RemoveTmpMeta)), now);
    var s2 := ApplySave(opt, s1, ok(MetaCall(CreateTmpMeta)), now);
    assert SavedFrom(opt, s, ok, now) == SavedFrom(opt, s1, ok, now);
    if ok(MetaCall(CreateTmpMeta)) {
      assert SavedFrom(opt, s1, ok, now) == SavedFrom(opt, s2, ok, now);
      SavedFromWrite(opt, s2, ok, now);
    }
  }

  lemma SavedFromWrite(opt: Options, s: State, ok: Call -> bool, now: int)
    requires s.pc.Saving? && s.pc.stage.WriteTmpMeta? && s.tmpMeta == Some(Garbage) && ok(MetaCall(CreateTmpMeta))
    ensures SavedFrom(opt, s, ok, now) == Saved(opt, s, ok, now)
  {
    var s1 := ApplySave(opt, s, ok(MetaCall(WriteTmpMeta)), now);
    if ok(MetaCall(WriteTmpMeta)) {
      var s2 := ApplySave(opt, s1, ok(MetaCall(RemoveMeta)), now);
      assert SavedFrom(opt, s, ok, now) == SavedFrom(opt, s1, ok, now) == SavedFrom(opt, s2, ok, now);
    }
  }

  function CleanSteps(ok: Call -> bool): seq<Step> {
    [Clean(ok(Removal(Data)))]
    + ([Clean(ok(Removal(Tmp)))] + ([Clean(ok(Removal(MetaFile)))] + ([Clean(ok(Removal(TmpMeta)))] + [])))
  }

  lemma CleanRuns(c: Codec, opt: Options, s: State, ok: Call -> bool)
    requires s.pc == Cleaning(Data)
    ensures Run(c, opt, s, CleanSteps(ok)) == Some(CleanedUp(s, ok))
  {
    var a, b, d, e := ok(Removal(Data)), ok(Removal(Tmp)), ok(Removal(MetaFile)), ok(Removal(TmpMeta));
    var s1 := ApplyClean(s, a);
    var s2 := ApplyClean(s1, b);
    var s3 := ApplyClean(s2, d);
    RunFirst(c, opt, s, Clean(a), [Clean(b)] + ([Clean(d)] + ([Clean(e)] + [])));
    RunFirst(c, opt, s1, Clean(b), [Clean(d)] + ([Clean(e)] + []));
    RunFirst(c, opt, s2, Clean(d), [Clean(e)] + []);
    RunFirst(c, opt, s3, Clean(e), []);
  }

  /** The steps of `Close` after its closers, from the state they leave. */
  function ReplaceSteps(s: State, ok: Call -> bool, now: int): seq<Step> {
    if !ok(RenameTmp) || s.tmp.None? then CleanSteps(ok)
    else SaveSteps(RemoveTmpMeta, ok, now) + if Saves(ok) then [] else CleanSteps(ok)
  }

  function CloseSteps(c: Codec, opt: Options, s: State, ok: Call -> bool, now: int): seq<Step>
    requires s.pc.Downloading?
  {
    [Close(true)]
    + if !IsComplete(s.pc.d) then CleanSteps(ok)
      else [Replace(ok(DropOld))] + ([Replace(ok(RenameTmp))] + ReplaceSteps(s, ok, now))
  }

  lemma SaveThenClean(c: Codec, opt: Options, s: State, ok: Call -> bool, now: int)
    requires s.pc.Saving? && s.pc.stage.RemoveTmpMeta? && s.pc.purpose.AfterDownload?
    ensures var t := Saved(opt, s, ok, now);
      Run(c, opt, s, SaveSteps(RemoveTmpMeta, ok, now) + if Saves(ok) then [] else CleanSteps(ok))
      == Some(if Saves(ok) then t else CleanedUp(t, ok))
  {
    var t := Saved(opt, s, ok, now);
    SaveRunsFrom(c, opt, s, ok, now);
    SavedFromStart(opt, s, ok, now);
    RunConcat(c, opt, s, SaveSteps(RemoveTmpMeta, ok, now), t, if Saves(ok) then [] else CleanSteps(ok));
    if !Saves(ok) {
      CleanRuns(c, opt, t, ok);
    }
  }

  lemma PublishRuns(c: Codec, opt: Options, u: State, ok: Call -> bool, now: int)
    requires u.pc.Publish?
    ensures Run(c, opt, u, [Replace(ok(RenameTmp))] + ReplaceSteps(u, ok, now))
         == Some(if !ok(RenameTmp) || u.tmp.None? then CleanedUp(u, ok)
                 else
                   var t := Saved(opt, Published(u, u.tmp.value, u.pc.d.src), ok, now);
                   if Saves(ok) then t else CleanedUp(t, ok))
  {
    RunFirst(c, opt, u, Replace(ok(RenameTmp)), ReplaceSteps(u, ok, now));
    var v := ApplyReplace(u, ok(RenameTmp));
    if v.pc.Saving? {
      SaveThenClean(c, opt, v, ok, now);
    } else {
      CleanRuns(c, opt, v, ok);
    }
  }

  /** What `Close` does is an execution of the machine. */
  lemma CloseRuns(c: Codec, opt: Options, s: State, ok: Call -> bool, now: int)
    requires s.pc.Downloading?
    ensures Run(c, opt, s, CloseSteps(c, opt, s, ok, now)) == Some(Closed(c, opt, s, ok, now))
  {
    var t := ApplyClose(c, opt, s, true);
    if !IsComplete(s.pc.d) {
      RunFirst(c, opt, s, Close(true), CleanSteps(ok));
      CleanRuns(c, opt, t, ok);
    } else {
      var rest := [Replace(ok(RenameTmp))] + ReplaceSteps(s, ok, now);
      RunFirst(c, opt, s, Close(true), [Replace(ok(DropOld))] + rest);
      RunFirst(c, opt, t, Replace(ok(DropOld)), rest);
      PublishRuns(c, opt, ApplyReplace(t, ok(DropOld)), ok, now);
    }
  }

  /** The steps of a reader that finds a fresh entry. */
  function HitSteps(now: int, head: Head): seq<Step> {
    [Open] + ([Check(now, head)] + ([Check(now, head)] + ([Check(now, head)] + ([OpenFile(true)] + []))))
  }

  /** Young enough metadata beside a data file: the next reader is served from the file. */
  lemma FreshEntryHits(c: Codec, opt: Options, s: State, now: int, head: Head)
    requires s.pc.Idle? && s.data.Some? && s.meta.Some? && s.meta.value.Meta?
    requires opt.ttl > 0 && now - s.meta.value.cachedAt < opt.ttl
    ensures Run(c, opt, s, HitSteps(now, head))
         == Some(s.(pc := Serving(s.data.value, s.published, [], false)))
  {
    var look, serve := Check(now, head), [OpenFile(true)] + [];
    RunFirst(c, opt, s, Open, [look] + ([look] + ([look] + serve)));
    RunFirst(c, opt, s.(pc := StatMeta), look, [look] + ([look] + serve));
    RunFirst(c, opt, s.(pc := StatData), look, [look] + serve);
    RunFirst(c, opt, s.(pc := LoadMeta), look, serve);
    RunFirst(c, opt, s.(pc := OpenData), OpenFile(true), []);
  }

  /**
   A miss and then a hit: close a complete download, all file operations succeeding, and the next reader
   within the time to live is served the finished file of that download.
   */
  lemma MissThenHit(c: Codec, opt: Options, s: State, ok: Call -> bool, saved: int, now: int, head: Head)
    requires s.pc.Downloading? && s.pc.d.eof && (s.pc.d.src.length <= 0 || s.pc.d.pulled == s.pc.d.src.length)
    requires s.tmp.Some? && ok(RenameTmp) && Saves(ok) && AllRemoved(ok)
    requires opt.ttl > 0 && now - saved < opt.ttl
    ensures var t := Run(c, opt, s, CloseSteps(c, opt, s, ok, saved) + HitSteps(now, head));
      && t.Some? && Finished(c, opt, s.tmp, s.pc.d).Some?
      && t.value.pc == Serving(Finished(c, opt, s.tmp, s.pc.d).value, Some(s.pc.d.src), [], false)
      && t.value.meta == Some(HttpCache.Meta.Meta(saved, Some(opt.retention), s.pc.d.src.validators))
  {
    var t := Closed(c, opt, s, ok, saved);
    CloseRuns(c, opt, s, ok, saved);
    CloseOutcome(c, opt, s, ok, saved);
    RunConcat(c, opt, s, CloseSteps(c, opt, s, ok, saved), t, HitSteps(now, head));
    FreshEntryHits(c, opt, t, now, head);
  }

  /**
   An incomplete download leaves nothing of the entry behind, so the next reader downloads: the end was not
   reached, or the number of bytes is not the one announced.
   */
  lemma IncompleteLeavesNothing(c: Codec, opt: Options, s: State, ok: Call -> bool, now: int)
    requires s.pc.Downloading? && AllRemoved(ok)
    requires !s.pc.d.eof || (s.pc.d.src.length > 0 && s.pc.d.pulled != s.pc.d.src.length)
    ensures var t := Run(c, opt, s, CloseSteps(c, opt, s, ok, now));
      && t.Some? && t.value.pc.Idle?
      && t.value.data.None? && t.value.tmp.None? && t.value.meta.None? && t.value.tmpMeta.None?
  {
    CloseRuns(c, opt, s, ok, now);
    CloseOutcome(c, opt, s, ok, now);
  }

  /** A closer that fails ends the reader at once: no file is renamed or removed. */
  lemma FailedCloserLeavesFiles(c: Codec, opt: Options, s: State)
    requires s.pc.Downloading?
    ensures Run(c, opt, s, [Close(false)]) == Some(s.(pc := Idle))
  {
    RunFirst(c, opt, s, Close(false), []);
  }

  /**
   Renewal: metadata past its time to live that is not past its Expires, or that the server reports
   unmodified, is written anew with the present time. The validators are those of the HEAD answer, and none
   in the first case, where no answer was asked for. When it cannot be written, the entry is served all the
   same in the first case, and downloaded again in the second.
   */
  lemma RenewalRestamps(c: Codec, opt: Options, s: State, ok: Call -> bool, now: int, head: Head)
    requires s.pc.LoadMeta? && s.meta.Some? && s.meta.value.Meta?
    requires !(opt.ttl > 0 && now - s.meta.value.cachedAt < opt.ttl)
    requires var v := s.meta.value.validators;
      || (v.expires.Some? && v.expires.value > now)
      || (v.lastModified.Some? && head.Answer?
          && (head.status == 304
              || (head.status == 200 && head.validators.lastModified.Some?
                  && head.validators.lastModified.value <= v.lastModified.value)))
    ensures var t := Run(c, opt, s, [Check(now, head)] + SaveSteps(RemoveTmpMeta, ok, now));
      var v := s.meta.value.validators;
      var unexpired := v.expires.Some? && v.expires.value > now;
      && t.Some? && t.value.data == s.data
      && t.value.pc == (if unexpired || Saves(ok) then OpenData else Fetch)
      && (Saves(ok) ==> t.value.meta == Some(HttpCache.Meta.Meta(now, Some(opt.retention),
            if unexpired then Validators(None, None) else head.validators)))
  {
    RunFirst(c, opt, s, Check(now, head), SaveSteps(RemoveTmpMeta, ok, now));
    var t := Apply(c, opt, s, Check(now, head));
    SaveRunsFrom(c, opt, t, ok, now);
    SavedFromStart(opt, t, ok, now);
  }
}

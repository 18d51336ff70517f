/**
 One entry of the HTTP cache and the reader that uses it (internal/httpclient/reader.go,
 storage.go). Every step is one file-system call, one network answer or one chunk read,
 any call may fail, the process may die between two steps, and the cleaner may delete a
 file at any moment. Readers of one entry follow one another. Gzip is a pair of functions.
 */
module HttpCache {
  import opened Basics

  type Bytes = seq<bv8>

  datatype Codec = Codec(zip: Bytes -> Bytes, unzip: Bytes -> Option<Bytes>)

  ghost predicate Inverse(c: Codec) {
    forall x :: c.unzip(c.zip(x)) == Some(x)
  }

  /** The times of the headers that are looked at again, where present and well-formed. */
  datatype Validators = Validators(expires: Option<int>, lastModified: Option<int>)

  /** An answer to GET: the bytes up to its end, and `ContentLength` (not positive: unknown). */
  datatype Source = Source(raw: Bytes, gzipped: bool, length: int, validators: Validators)

  /** What a caller that reads everything gets. */
  function Body(c: Codec, src: Source): Option<Bytes> {
    if src.gzipped then c.unzip(src.raw) else Some(src.raw)
  }

  /** The finished data file of a source. */
  function Stored(c: Codec, compression: bool, src: Source): Option<Bytes> {
    if compression && !src.gzipped then Some(c.zip(src.raw))
    else if compression then Some(src.raw)
    else Body(c, src)
  }

  /** What a cached data file is read as. */
  function Decoded(c: Codec, compression: bool, file: Bytes): Option<Bytes> {
    if compression then c.unzip(file) else Some(file)
  }

  datatype Meta = Garbage | Meta(cachedAt: int, retention: Option<int>, validators: Validators)

  /** The answer to the HEAD request of a renewal. */
  datatype Head = NoAnswer | Answer(status: int, validators: Validators)

  /** A download: bytes pulled from the source, bytes given to the caller. */
  datatype Download = Download(src: Source, pulled: nat, given: Bytes, eof: bool)

  /** Why metadata is saved. */
  datatype Purpose = ByExpires | ByHead | AfterDownload

  datatype Stage = RemoveTmpMeta | CreateTmpMeta | WriteTmpMeta | RemoveMeta | RenameMeta

  datatype FileKind = Data | Tmp | MetaFile | TmpMeta

  /** Where the reader is. */
  datatype Pc =
    | Idle                                                           // no reader
    | StatMeta | StatData | LoadMeta                                 // checkCacheStatus
    | Saving(stage: Stage, purpose: Purpose, validators: Validators) // SaveMetadata
    | OpenData                                                       // newCachedReader
    | Serving(file: Bytes, origin: Option<Source>, given: Bytes, eof: bool)
    | Fetch                                                          // newCachingReader
    | RemoveTmp(src: Source) | CreateTmp(src: Source)                // createCacheFile
    | Downloading(d: Download)
    | DropData(d: Download) | Publish(d: Download)                   // Close of a complete download
    | Cleaning(next: FileKind)                                       // Cleanup

  datatype State = State(
    data: Option<Bytes>, tmp: Option<Bytes>, meta: Option<Meta>, tmpMeta: Option<Meta>,
    pc: Pc,
    published: Option<Source>,   // history: whose download became the data file
    disturbed: bool)             // history: a death, a refused removal or a deletion from outside

  datatype Options = Options(compression: bool, ttl: int, retention: int)

  datatype Step =
    | Open
    | Check(now: int, head: Head)
    | Save(ok: bool, now: int)
    | OpenFile(ok: bool)
    | Serve(chunk: Bytes, eof: bool)
    | Respond(answer: Option<Source>)
    | CreateFile(ok: bool)
    | Deliver(chunk: Bytes, pulled: nat, eof: bool, flushed: Bytes)
    | Close(ok: bool)            // ok: all closers succeed
    | Replace(ok: bool)
    | Clean(ok: bool)
    | Die
    | Vanish(file: FileKind)     // deleted from outside
    | CleanEntry(now: int)       // a cleaner run that no reader step interrupts

  // ---------- checkCacheStatus ----------

  /** `isModifiedSince`; no stored validator means modified, without a request. */
  predicate IsModified(since: Option<int>, head: Head) {
    match head
    case NoAnswer => true
    case Answer(status, v) =>
      if since.None? then true
      else if status == 304 then false
      else if status == 200 && v.lastModified.Some? then v.lastModified.value > since.value
      else true
  }

  /** The decision once the metadata has been read. */
  function Decide(opt: Options, meta: Meta, now: int, head: Head): Pc {
    match meta
    case Garbage => Fetch
    case Meta(cachedAt, _, v) =>
      if opt.ttl > 0 && now - cachedAt < opt.ttl then OpenData
      else if v.expires.Some? && v.expires.value > now then Saving(RemoveTmpMeta, ByExpires, Validators(None, None))
      else if !IsModified(v.lastModified, head) then Saving(RemoveTmpMeta, ByHead, head.validators)
      else Fetch
  }

  function ApplyCheck(opt: Options, s: State, now: int, head: Head): State {
    match s.pc
    case StatMeta => s.(pc := if s.meta.Some? then StatData else Fetch)
    case StatData => s.(pc := if s.data.Some? then LoadMeta else Fetch)
    case _ => s.(pc := if s.meta.Some? then Decide(opt, s.meta.value, now, head) else Fetch)
  }

  // ---------- SaveMetadata ----------

  function AfterSave(purpose: Purpose, ok: bool): Pc {
    match purpose
    case ByExpires => OpenData
    case ByHead => if ok then OpenData else Fetch
    case AfterDownload => if ok then Idle else Cleaning(Data)
  }

  function ApplySave(opt: Options, s: State, ok: bool, now: int): State
    requires s.pc.Saving?
  {
    var next := (stage: Stage) => s.pc.(stage := stage);
    match s.pc.stage
    case RemoveTmpMeta => s.(tmpMeta := if ok then None else s.tmpMeta, pc := next(CreateTmpMeta))
    case CreateTmpMeta =>
      if ok then s.(tmpMeta := Some(Garbage), pc := next(WriteTmpMeta)) else s.(pc := AfterSave(s.pc.purpose, false))
    case WriteTmpMeta =>
      if ok then
        s.(tmpMeta := Written(s.tmpMeta, Meta(now, Some(opt.retention), s.pc.validators)), pc := next(RemoveMeta))
      else s.(pc := AfterSave(s.pc.purpose, false))
    case RemoveMeta => s.(meta := if ok then None else s.meta, pc := next(RenameMeta))
    case RenameMeta =>
      if ok && s.tmpMeta.Some? then s.(meta := s.tmpMeta, tmpMeta := None, pc := AfterSave(s.pc.purpose, true))
      else s.(pc := AfterSave(s.pc.purpose, false))
  }

  /** New content for an open file, unless its name is gone. */
  function Written<T>(file: Option<T>, content: T): Option<T> {
    if file.Some? then Some(content) else None
  }

  // ---------- Reading ----------

  predicate CanServe(c: Codec, opt: Options, pc: Pc, chunk: Bytes, eof: bool)
    requires pc.Serving?
  {
    var all := Decoded(c, opt.compression, pc.file);
    !pc.eof && (all.Some? ==> pc.given + chunk <= all.value) && (eof ==> all == Some(pc.given + chunk))
  }

  predicate CanDeliver(c: Codec, d: Download, chunk: Bytes, pulled: nat, eof: bool) {
    && !d.eof && d.pulled <= pulled <= |d.src.raw|
    && (Body(c, d.src).Some? ==> d.given + chunk <= Body(c, d.src).value)
    && (eof ==> Body(c, d.src) == Some(d.given + chunk) && pulled == |d.src.raw|)
    && (!d.src.gzipped ==> d.given + chunk == d.src.raw[..pulled])
  }

  /** What the file being written holds; `flushed` is what a compressor has passed on so far. */
  function FileSoFar(opt: Options, d: Download, flushed: Bytes): Bytes
    requires d.pulled <= |d.src.raw|
  {
    if opt.compression && d.src.gzipped then d.src.raw[..d.pulled]
    else if opt.compression then flushed
    else d.given
  }

  /** `isDownloadComplete`. */
  predicate IsComplete(d: Download) {
    if d.src.length <= 0 then d.eof else d.pulled == d.src.length && d.eof
  }

  function ApplyDeliver(opt: Options, s: State, chunk: Bytes, pulled: nat, eof: bool, flushed: Bytes): State
    requires s.pc.Downloading? && pulled <= |s.pc.d.src.raw|
  {
    var d := Download(s.pc.d.src, pulled, s.pc.d.given + chunk, eof);
    s.(pc := Downloading(d), tmp := Written(s.tmp, FileSoFar(opt, d, flushed)))
  }

  /** `Close` up to its first file operation; closing a compressor writes out the rest. */
  function ApplyClose(c: Codec, opt: Options, s: State, ok: bool): State {
    match s.pc
    case Downloading(d) =>
      var closed := if ok && opt.compression && !d.src.gzipped then s.(tmp := Written(s.tmp, c.zip(d.given))) else s;
      closed.(pc := if !ok then Idle else if IsComplete(d) then DropData(d) else Cleaning(Data))
    case _ => s.(pc := Idle)
  }

  // ---------- Replacing and removing files ----------

  function ApplyReplace(s: State, ok: bool): State
    requires s.pc.DropData? || s.pc.Publish?
  {
    if s.pc.DropData? then s.(data := if ok then None else s.data, pc := Publish(s.pc.d))
    else if ok && s.tmp.Some? then
      s.(data := s.tmp, tmp := None, published := Some(s.pc.d.src),
         pc := Saving(RemoveTmpMeta, AfterDownload, s.pc.d.src.validators))
    else s.(pc := Cleaning(Data))
  }

  function Without(s: State, file: FileKind): State {
    match file
    case Data => s.(data := None)
    case Tmp => s.(tmp := None)
    case MetaFile => s.(meta := None)
    case TmpMeta => s.(tmpMeta := None)
  }

  function ApplyClean(s: State, ok: bool): State
    requires s.pc.Cleaning?
  {
    var pc := match s.pc.next
      case Data => Cleaning(Tmp)
      case Tmp => Cleaning(MetaFile)
      case MetaFile => Cleaning(TmpMeta)
      case TmpMeta => Idle;
    (if ok then Without(s, s.pc.next) else s).(pc := pc, disturbed := s.disturbed || !ok)
  }

  /** Whether `cleanExpired` removes an entry with this metadata. */
  predicate IsExpired(meta: Meta, now: int)
    requires meta.Meta?
  {
    match meta.retention
    case None => now - meta.cachedAt > 24 * 3600
    case Some(r) => r <= 0 || now - meta.cachedAt > r
  }

  /** One cleaner run, for the files of this entry. */
  function Cleaned(s: State, now: int): State {
    var kept := s.(tmp := None, tmpMeta := None);
    match s.meta
    case None => kept.(data := None)
    case Some(Garbage) => kept.(meta := None)
    case Some(m) => if IsExpired(m, now) then kept.(data := None, meta := None) else kept
  }

  // ---------- Steps ----------

  predicate Quiet(pc: Pc) {
    pc.Idle? || pc.Serving? || pc.Downloading?
  }

  predicate Enabled(c: Codec, opt: Options, s: State, step: Step) {
    match step
    case Open => s.pc.Idle?
    case Check(_, _) => s.pc.StatMeta? || s.pc.StatData? || s.pc.LoadMeta?
    case Save(_, _) => s.pc.Saving?
    case OpenFile(_) => s.pc.OpenData?
    case Serve(chunk, eof) => s.pc.Serving? && CanServe(c, opt, s.pc, chunk, eof)
    case Respond(_) => s.pc.Fetch?
    case CreateFile(_) => s.pc.RemoveTmp? || s.pc.CreateTmp?
    case Deliver(chunk, pulled, eof, _) => s.pc.Downloading? && CanDeliver(c, s.pc.d, chunk, pulled, eof)
    case Close(_) => s.pc.Serving? || s.pc.Downloading?
    case Replace(_) => s.pc.DropData? || s.pc.Publish?
    case Clean(_) => s.pc.Cleaning?
    case Die => true
    case Vanish(_) => true
    case CleanEntry(_) => Quiet(s.pc)
  }

  function Apply(c: Codec, opt: Options, s: State, step: Step): State
    requires Enabled(c, opt, s, step)
  {
    match step
    case Open => s.(pc := StatMeta)
    case Check(now, head) => ApplyCheck(opt, s, now, head)
    case Save(ok, now) => ApplySave(opt, s, ok, now)
    case OpenFile(ok) =>
      s.(pc := if ok && s.data.Some? then Serving(s.data.value, s.published, [], false) else Idle)
    case Serve(chunk, eof) => s.(pc := s.pc.(given := s.pc.given + chunk, eof := eof))
    case Respond(answer) => s.(pc := if answer.Some? then RemoveTmp(answer.value) else Idle)
    case CreateFile(ok) => ApplyCreate(s, ok)
    case Deliver(chunk, pulled, eof, flushed) => ApplyDeliver(opt, s, chunk, pulled, eof, flushed)
    case Close(ok) => ApplyClose(c, opt, s, ok)
    case Replace(ok) => ApplyReplace(s, ok)
    case Clean(ok) => ApplyClean(s, ok)
    case Die => s.(pc := Idle, disturbed := s.disturbed || !Quiet(s.pc))
    case Vanish(file) => Without(s, file).(disturbed := true)
    case CleanEntry(now) => Cleaned(s, now)
  }

  function ApplyCreate(s: State, ok: bool): State
    requires s.pc.RemoveTmp? || s.pc.CreateTmp?
  {
    if s.pc.RemoveTmp? then s.(tmp := if ok then None else s.tmp, pc := CreateTmp(s.pc.src))
    else if ok then s.(tmp := Some([]), pc := Downloading(Download(s.pc.src, 0, [], false)))
    else s.(pc := Idle)
  }

  const EMPTY := State(None, None, None, None, Idle, None, false)

  ghost predicate IsRun(c: Codec, opt: Options, states: seq<State>, steps: seq<Step>) {
    && |states| == |steps| + 1 && states[0] == EMPTY
    && forall i | 0 <= i < |steps| ::
         Enabled(c, opt, states[i], steps[i]) && states[i + 1] == Apply(c, opt, states[i], steps[i])
  }
}

/**
 The cleaner of the cache directory (internal/httpclient/store.go): `cleanExpired` and
 `removeEntry` over all files, and what a run leaves.
 */
module HttpStore {
  import opened HttpCache

  /** A file name by its extension: `.gz`, `.cache`, `.meta`, or any other. */
  datatype FileName = Compressed(base: string) | Plain(base: string) | Metadata(base: string) | Unexpected(name: string)

  /** The files of the directory, each with what reading it as metadata gives. */
  type Files = map<FileName, Meta>

  predicate IsData(f: FileName) {
    f.Compressed? || f.Plain?
  }

  function Base(f: FileName): string
    requires IsData(f) || f.Metadata?
  {
    match f
    case Compressed(b) => b
    case Plain(b) => b
    case Metadata(b) => b
  }

  /** A listing of the directory by name: every data file before its metadata. */
  ghost predicate IsListing(names: seq<FileName>, files: Files) {
    && (forall f :: f in names <==> f in files)
    && (forall i, j | 0 <= i < j < |names| :: names[i] != names[j])
    && (forall i, j | 0 <= i < j < |names| ::
         !(names[i].Metadata? && IsData(names[j]) && Base(names[i]) == Base(names[j])))
  }

  // ---------- What a run removes ----------

  predicate Expires(files: Files, base: string, now: int) {
    Metadata(base) in files && files[Metadata(base)].Meta? && IsExpired(files[Metadata(base)], now)
  }

  /** Files with another extension, unreadable metadata, data without metadata, and expired entries. */
  predicate Goes(files: Files, f: FileName, now: int) {
    match f
    case Unexpected(_) => true
    case Metadata(b) => f in files && (files[f].Garbage? || Expires(files, b, now))
    case _ => Metadata(Base(f)) !in files || Expires(files, Base(f), now)
  }

  function Remaining(files: Files, now: int): Files {
    map f | f in files && !Goes(files, f, now) :: files[f]
  }

  /**
   The files of base name `b` after a run, in plain numbers. Readable metadata stays as it is while it is no
   older than its retention, which must be positive, or than a day where it names none; data stay exactly
   with it. Unreadable metadata goes and leaves its data; data without metadata go.
   */
  ghost predicate EntryCleaned(before: Files, after: Files, b: string, now: int) {
    var young := Metadata(b) in before && before[Metadata(b)].Meta?
      && match before[Metadata(b)].retention
         case Some(r) => 0 < r && now - before[Metadata(b)].cachedAt <= r
         case None => now - before[Metadata(b)].cachedAt <= 86400;
    var unreadable := Metadata(b) in before && before[Metadata(b)] == Garbage;
    && (Metadata(b) in after <==> young)
    && (young ==> after[Metadata(b)] == before[Metadata(b)])
    && (Compressed(b) in after <==> Compressed(b) in before && (young || unreadable))
    && (Plain(b) in after <==> Plain(b) in before && (young || unreadable))
  }

  lemma CleanedByAge(files: Files, b: string, now: int)
    ensures EntryCleaned(files, Remaining(files, now), b, now)
  {
  }

  /** Whether handling the file `g` of the listing removes `f`. */
  predicate Removes(files: Files, g: FileName, f: FileName, now: int) {
    match g
    case Unexpected(_) => f == g
    case Metadata(b) =>
      if Expires(files, b, now) then f in Entry(b) else f == g && g in files && files[g].Garbage?
    case _ => f == g && Metadata(Base(g)) !in files
  }

  ghost predicate IsLeft(files: Files, done: seq<FileName>, now: int, left: Files) {
    && (forall f :: f in left <==> f in files && forall g | g in done :: !Removes(files, g, f, now))
    && (forall f | f in left :: left[f] == files[f])
  }

  /** A file goes exactly when some file of the directory makes it go. */
  lemma GoesIsRemoved(files: Files, f: FileName, now: int)
    requires f in files
    ensures Goes(files, f, now) <==> exists g :: g in files && Removes(files, g, f, now)
  {
    if Goes(files, f, now) {
      if IsData(f) && Metadata(Base(f)) in files {
        assert Removes(files, Metadata(Base(f)), f, now);
      } else {
        assert Removes(files, f, f, now);
      }
    }
  }

  class Store {
    var files: Files

    /** `os.Remove`: fails on a missing file and on those that cannot be removed. */
    method Remove(f: FileName, stuck: FileName -> bool) returns (ok: bool)
      modifies this
      ensures ok <==> f in old(files) && !stuck(f)
      ensures files == if ok then old(files) - {f} else old(files)
    {
      ok := f in files && !stuck(f);
      if ok {
        files := files - {f};
      }
    }

    /** A missing file is not an error here. */
    method RemoveIfThere(f: FileName, stuck: FileName -> bool) returns (ok: bool)
      modifies this
      ensures ok <==> f !in old(files) || !stuck(f)
      ensures files == if ok then old(files) - {f} else old(files)
    {
      var there := f in files;
      ok := Remove(f, stuck);
      ok := ok || !there;
    }

    method RemoveEntry(base: string, stuck: FileName -> bool) returns (ok: bool)
      modifies this
      ensures ok <==> forall f | f in Entry(base) && f in old(files) :: !stuck(f)
      ensures ok ==> files == old(files) - Entry(base)
      ensures forall f | f in old(files) && f !in Entry(base) :: f in files
      ensures files.Keys <= old(files).Keys && forall f <- files :: files[f] == old(files)[f]
      ensures forall f | f in old(files) && f !in files :: !stuck(f)
    {
      ok := RemoveIfThere(Compressed(base), stuck);
      if !ok {
        return;
      }
      ok := RemoveIfThere(Plain(base), stuck);
      if !ok {
        return;
      }
      ok := RemoveIfThere(Metadata(base), stuck);
    }

    /** Handles one file of the listing. */
    method CleanFile(f: FileName, now: int, stuck: FileName -> bool) returns (ok: bool)
      requires f in files
      modifies this
      ensures ok <==> forall g | g in old(files) && Removes(old(files), f, g, now) :: !stuck(g)
      ensures ok ==> forall g :: g in files <==> g in old(files) && !Removes(old(files), f, g, now)
      ensures forall g | g in old(files) && !Removes(old(files), f, g, now) :: g in files
      ensures files.Keys <= old(files).Keys && forall g <- files :: files[g] == old(files)[g]
      ensures forall g | g in old(files) && g !in files :: !stuck(g)
    {
      if IsData(f) {
        if Metadata(Base(f)) !in files {
          ok := Remove(f, stuck);
        } else {
          ok := true;
        }
      } else if f.Metadata? {
        if files[f].Garbage? {
          ok := RemoveIfThere(f, stuck);
        } else if IsExpired(files[f], now) {
          ok := RemoveEntry(f.base, stuck);
        } else {
          ok := true;
        }
      } else {
        ok := RemoveIfThere(f, stuck);
      }
    }

    /** Goes through a listing; `stuck` names the files that cannot be removed. */
    method CleanExpired(names: seq<FileName>, now: int, stuck: FileName -> bool) returns (ok: bool)
      requires IsListing(names, files)
      modifies this
      ensures ok <==> forall f | f in old(files) && Goes(old(files), f, now) :: !stuck(f)
      ensures ok ==> files == Remaining(old(files), now)
      ensures ok ==> forall b :: EntryCleaned(old(files), files, b, now)
      ensures ok ==> forall name :: Unexpected(name) !in files
      ensures forall f | f in old(files) && !Goes(old(files), f, now) :: f in files
      ensures files.Keys <= old(files).Keys && forall f <- files :: files[f] == old(files)[f]
    {
      ghost var before := files;
      for i := 0 to |names|
        invariant IsLeft(before, names[..i], now, files)
        invariant forall g | g in before && g !in files :: !stuck(g)
      {
        ok := CleanNth(before, names, i, now, stuck);
        if !ok {
          return;
        }
      }
      assert names[..|names|] == names;
      AllHandled(before, names, now, files);
      forall b ensures EntryCleaned(before, files, b, now) {
        CleanedByAge(before, b, now);
      }
      return true;
    }

    /** The file in the `i`th place, those before it having been handled. */
    method CleanNth(ghost before: Files, names: seq<FileName>, i: nat, now: int, stuck: FileName -> bool)
      returns (ok: bool)
      requires IsListing(names, before) && i < |names| && IsLeft(before, names[..i], now, files)
      modifies this
      ensures ok ==> IsLeft(before, names[..i + 1], now, files)
      ensures !ok ==> exists g :: g in before && Goes(before, g, now) && stuck(g)
      ensures forall f | f in before && !Goes(before, f, now) :: f in files
      ensures files.Keys <= before.Keys && forall f <- files :: files[f] == before[f]
      ensures forall g | g in old(files) && g !in files :: !stuck(g)
    {
      ghost var left := files;
      StillThere(before, names, i, now, left);
      ok := CleanFile(names[i], now, stuck);
      LeftSafe(before, names, i, now, left, files);
      if ok {
        NextLeft(before, names, i, now, left, files);
      } else {
        SomethingStuck(before, left, names[i], now, stuck);
      }
    }
  }

  // ---------- Why the order of the listing does not matter beyond data before metadata ----------

  lemma NotYetRemoved(before: Files, names: seq<FileName>, i: nat, j: nat, now: int)
    requires IsListing(names, before) && j < i < |names|
    ensures !Removes(before, names[j], names[i], now)
    ensures IsData(names[i]) ==> !Removes(before, names[j], Metadata(Base(names[i])), now)
  {
  }

  /** The next file of the listing and, for a data file, its metadata are still there. */
  lemma StillThere(before: Files, names: seq<FileName>, i: nat, now: int, left: Files)
    requires IsListing(names, before) && i < |names| && IsLeft(before, names[..i], now, left)
    ensures names[i] in left && left[names[i]] == before[names[i]]
    ensures forall g :: Removes(left, names[i], g, now) <==> Removes(before, names[i], g, now)
  {
    var f := names[i];
    forall h | h in names[..i]
      ensures !Removes(before, h, f, now)
      ensures IsData(f) ==> !Removes(before, h, Metadata(Base(f)), now)
    {
      var j :| 0 <= j < i && names[j] == h;
      NotYetRemoved(before, names, i, j, now);
    }
    assert f in names;
  }

  lemma LeftSafe(before: Files, names: seq<FileName>, i: nat, now: int, left: Files, after: Files)
    requires IsListing(names, before) && i < |names| && IsLeft(before, names[..i], now, left)
    requires forall g :: Removes(left, names[i], g, now) <==> Removes(before, names[i], g, now)
    requires forall g | g in left && !Removes(left, names[i], g, now) :: g in after
    ensures forall f | f in before && !Goes(before, f, now) :: f in after
  {
    forall f | f in before && !Goes(before, f, now) ensures f in after {
      GoesIsRemoved(before, f, now);
      assert forall g | g in names[..i] :: g in names;
      assert names[i] in names;
    }
  }

  lemma SomethingStuck(before: Files, left: Files, f: FileName, now: int, stuck: FileName -> bool)
    requires f in before && left.Keys <= before.Keys
    requires forall g :: Removes(left, f, g, now) <==> Removes(before, f, g, now)
    requires exists g :: g in left && Removes(left, f, g, now) && stuck(g)
    ensures exists g :: g in before && Goes(before, g, now) && stuck(g)
  {
    var g :| g in left && Removes(left, f, g, now) && stuck(g);
    GoesIsRemoved(before, g, now);
  }

  lemma NextLeft(before: Files, names: seq<FileName>, i: nat, now: int, left: Files, after: Files)
    requires IsListing(names, before) && i < |names| && IsLeft(before, names[..i], now, left)
    requires forall g :: Removes(left, names[i], g, now) <==> Removes(before, names[i], g, now)
    requires forall g :: g in after <==> g in left && !Removes(left, names[i], g, now)
    requires forall g <- after :: g in left && after[g] == left[g]
    ensures IsLeft(before, names[..i + 1], now, after)
  {
    assert forall g :: g in names[..i + 1] <==> g in names[..i] || g == names[i];
  }

  lemma LeftIffStays(before: Files, names: seq<FileName>, now: int, f: FileName)
    requires (forall g :: g in names <==> g in before) && f in before
    ensures (forall g | g in names :: !Removes(before, g, f, now)) <==> !Goes(before, f, now)
  {
    GoesIsRemoved(before, f, now);
  }

  lemma AllHandled(before: Files, names: seq<FileName>, now: int, left: Files)
    requires (forall f :: f in names <==> f in before) && IsLeft(before, names, now, left)
    ensures left == Remaining(before, now)
  {
    forall f ensures f in left <==> f in before && !Goes(before, f, now) {
      if f in before {
        LeftIffStays(before, names, now, f);
      }
    }
  }

  // ---------- What is left ----------

  /** Only unreadable metadata leaves data without metadata behind, and the next run takes it. */
  lemma OrphansOfGarbage(files: Files, f: FileName, now: int)
    requires f in Remaining(files, now)
    ensures IsData(f) ==> Metadata(Base(f)) in files
    ensures IsData(f) ==> (Metadata(Base(f)) !in Remaining(files, now) <==> files[Metadata(Base(f))].Garbage?)
  {
  }

  lemma TwoRunsSettle(files: Files, now: int)
    ensures var twice := Remaining(Remaining(files, now), now);
      && Remaining(twice, now) == twice
      && forall f <- twice :: !f.Unexpected? && (IsData(f) ==> Metadata(Base(f)) in twice)
  {
    var once := Remaining(files, now);
    var twice := Remaining(once, now);
    forall f | f in twice ensures !Goes(twice, f, now) && (IsData(f) ==> Metadata(Base(f)) in twice) {
      OrphansOfGarbage(files, f, now);
      if IsData(f) {
        OrphansOfGarbage(once, f, now);
      }
    }
  }

  function Entry(base: string): set<FileName> {
    {Compressed(base), Plain(base), Metadata(base)}
  }

  /** The part of a directory that belongs to one entry. */
  ghost predicate Holds(files: Files, opt: Options, s: State, base: string) {
    && ((if opt.compression then Compressed(base) else Plain(base)) in files <==> s.data.Some?)
    && (Metadata(base) in files <==> s.meta.Some?) && (s.meta.Some? ==> files[Metadata(base)] == s.meta.value)
    && (Unexpected(base + ".tmp") in files <==> s.tmp.Some?)
    && (Unexpected(base + ".meta.tmp") in files <==> s.tmpMeta.Some?)
  }

  /** A run over the directory does to an entry what the step of the cache machine does. */
  lemma CleanedIsRemaining(files: Files, opt: Options, s: State, base: string, now: int)
    requires Holds(files, opt, s, base)
    ensures Holds(Remaining(files, now), opt, Cleaned(s, now), base)
  {
    var data := if opt.compression then Compressed(base) else Plain(base);
    assert data in Remaining(files, now) <==> data in files && !Goes(files, data, now);
  }
}
